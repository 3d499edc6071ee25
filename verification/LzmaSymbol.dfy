/**
 * One LZMA symbol as a graph of yes/no decisions. Every adaptive decision reads one
 * slot of the probability table; `Run` walks the graph with the real range coder,
 * `DryRun` walks it without updating probabilities.
 */
module LzmaSymbol {
  import opened LzmaBits
  import opened LzmaRange

  // Table layout: offsets from the start of the probability array.
  const SPEC_POS := 0
  const IS_REP0_LONG := 128
  const REP_LEN_CODER := 384
  const LEN_CODER := 896
  const IS_MATCH := 1408
  const ALIGN := 1664
  const IS_REP := 1680
  const IS_REP_G0 := 1692
  const IS_REP_G1 := 1704
  const IS_REP_G2 := 1716
  const POS_SLOT := 1728
  const LITERAL := 1984
  const LIT_SIZE := 0x300

  /** Where a length belongs: a new match or one of the four recent distances. */
  datatype Kind = NewMatch | Rep(which: nat)

  datatype Symbol =
    | Lit(byte: Byte)
    | ShortRep
    | Copy(kind: Kind, len: nat, dist: nat)
    | EndMark

  datatype Class = ClassLit | ClassMatch | ClassRep

  function ClassOf(s: Symbol): Class {
    match s
    case Lit(_) => ClassLit
    case ShortRep => ClassRep
    case Copy(Rep(_), _, _) => ClassRep
    case _ => ClassMatch
  }

  /** What stays fixed while one symbol is decoded. */
  datatype Ctx = Ctx(state: nat, posState: nat, lit: nat, matchByte: Byte)

  predicate CtxOk(x: Ctx) {
    && x.state < 12 && x.posState < 16
    && x.lit >= LITERAL && (x.lit - LITERAL) % LIT_SIZE == 0
  }

  predicate Fits(x: Ctx, probs: seq<nat>) {
    CtxOk(x) && x.lit + LIT_SIZE <= |probs|
  }

  predicate ProbsOk(probs: seq<nat>) {
    forall s :: 0 <= s < |probs| ==> ProbOk(probs[s])
  }

  datatype Band = Near | Mid | Far

  datatype Node =
    | IsMatch
    | LitBit(sym: nat, mb: Byte, same: bool)
    | IsRep | IsRepG0 | IsRep0Long | IsRepG1 | IsRepG2
    | LenChoice(kind: Kind)
    | LenChoice2(kind: Kind)
    | LenBit(kind: Kind, band: Band, m: nat)
    | SlotBit(len: nat, m: nat)
    | DirectBit(len: nat, dist: nat, left: nat)
    | RevBit(len: nat, dist: nat, i: nat, m: nat, left: nat, align: bool)
    | Done(symbol: Symbol)

  function BandLimit(b: Band): nat {
    if b.Far? then 256 else 8
  }

  predicate KindOk(k: Kind) {
    k.Rep? ==> k.which < 4
  }

  predicate SymbolOk(s: Symbol) {
    s.Copy? ==> KindOk(s.kind) && 2 <= s.len <= 273 && s.dist < U32 - 1
  }

  /** `m * 2^n`. */
  function Scale(m: nat, n: nat): nat
    decreases n
  {
    if n == 0 then m else Scale(2 * m, n - 1)
  }

  predicate NodeOk(n: Node) {
    match n
    case LitBit(sym, _, _) => 1 <= sym < 0x100
    case LenChoice(k) => KindOk(k)
    case LenChoice2(k) => KindOk(k)
    case LenBit(k, b, m) => KindOk(k) && 1 <= m < BandLimit(b)
    case SlotBit(len, m) => 2 <= len <= 273 && 1 <= m < 64
    case DirectBit(len, dist, left) => 2 <= len <= 273 && 1 <= left <= 26 && dist < Pow2(28 - left)
    case RevBit(len, dist, i, m, left, align) =>
      && 2 <= len <= 273 && 1 <= m <= i < 2 * m && 1 <= left
      && (if align then Scale(m, left) == 16 && dist % 16 == 0 && dist + 16 <= U32 && left <= 4
          else dist + Scale(m, left) <= 128 && left <= 5)
    case Done(s) => SymbolOk(s)
    case _ => true
  }

  lemma {:induction false} ScaleAtLeast(m: nat, n: nat)
    ensures Scale(m, n) >= m
    ensures n > 0 ==> Scale(m, n) >= 2 * m
    decreases n
  {
    if n > 0 { ScaleAtLeast(2 * m, n - 1); }
  }

  /** Adaptive decisions still to come, at most. */
  function Adaptive(n: Node): nat
    requires NodeOk(n)
  {
    match n
    case IsMatch => 22
    case LitBit(sym, _, _) => LevelBound(sym, 8); 8 - Level(sym)
    case IsRep => 21
    case IsRepG0 => 13
    case IsRep0Long => 11
    case IsRepG1 => 12
    case IsRepG2 => 11
    case LenChoice(k) => 10 + DistBits(k)
    case LenChoice2(k) => 9 + DistBits(k)
    case LenBit(k, b, m) =>
      LevelBound(m, 3); LevelBound(m, 8);
      (if b.Far? then 8 else 3) - Level(m) + DistBits(k)
    case SlotBit(_, m) => LevelBound(m, 6); 6 - Level(m) + 4
    case DirectBit(_, _, _) => 4
    case RevBit(_, _, _, _, left, _) => left
    case Done(_) => 0
  }

  function DistBits(k: Kind): nat {
    if k.NewMatch? then 10 else 0
  }

  /** Direct bits still to come, at most. */
  function Direct(n: Node): nat {
    match n
    case IsMatch => 26
    case IsRep => 26
    case LenChoice(k) => if k.NewMatch? then 26 else 0
    case LenChoice2(k) => if k.NewMatch? then 26 else 0
    case LenBit(k, _, _) => if k.NewMatch? then 26 else 0
    case SlotBit(_, _) => 26
    case DirectBit(_, _, left) => left
    case _ => 0
  }

  function Steps(n: Node): nat
    requires NodeOk(n)
  {
    Adaptive(n) + Direct(n)
  }

  // ---- The decision graph

  function Bit(b: bool): nat {
    if b then 1 else 0
  }

  /** The length, less two, that a full node number of a band stands for. */
  function LenOf(band: Band, m: nat): nat
    requires m >= BandLimit(band)
  {
    match band
    case Near => m - 8
    case Mid => m
    case Far => m - 240
  }

  function AfterLen(k: Kind, len: nat): Node {
    if k.NewMatch? then SlotBit(len + 2, 1) else Done(Copy(k, len + 2, 0))
  }

  function AfterSlot(len: nat, slot: nat): Node
    requires slot < 64
  {
    if slot < 4 then Done(Copy(NewMatch, len, slot))
    else if slot < 14 then
      RevBit(len, (2 + slot % 2) * Pow2(slot / 2 - 1), 1, 1, slot / 2 - 1, false)
    else DirectBit(len, 2 + slot % 2, slot / 2 - 5)
  }

  function AfterRev(len: nat, value: nat, align: bool): Node {
    if align && value == U32 - 1 then Done(EndMark) else Done(Copy(NewMatch, len, value))
  }

  function Follow(x: Ctx, n: Node, b: bool): Node
    requires NodeOk(n) && !n.Done?
  {
    match n
    case IsMatch => if b then IsRep else LitBit(1, x.matchByte, x.state >= 7)
    case LitBit(sym, mb, same) =>
      var s := 2 * sym + Bit(b);
      if s < 0x100 then LitBit(s, mb * 2 % 256, same && b == (mb >= 128)) else Done(Lit(s % 256))
    case IsRep => if b then IsRepG0 else LenChoice(NewMatch)
    case IsRepG0 => if b then IsRepG1 else IsRep0Long
    case IsRep0Long => if b then LenChoice(Rep(0)) else Done(ShortRep)
    case IsRepG1 => if b then IsRepG2 else LenChoice(Rep(1))
    case IsRepG2 => if b then LenChoice(Rep(3)) else LenChoice(Rep(2))
    case LenChoice(k) => if b then LenChoice2(k) else LenBit(k, Near, 1)
    case LenChoice2(k) => if b then LenBit(k, Far, 1) else LenBit(k, Mid, 1)
    case LenBit(k, band, m) =>
      var m' := 2 * m + Bit(b);
      if m' < BandLimit(band) then LenBit(k, band, m')
      else AfterLen(k, LenOf(band, m'))
    case SlotBit(len, m) =>
      var m' := 2 * m + Bit(b);
      if m' < 64 then SlotBit(len, m') else AfterSlot(len, m' % 64)
    case DirectBit(len, dist, left) =>
      var d := 2 * dist + Bit(b);
      if left > 1 then DirectBit(len, d, left - 1) else RevBit(len, 16 * d, 1, 1, 4, true)
    case RevBit(len, dist, i, m, left, align) =>
      var i' := i + m + Bit(b) * m;
      if left > 1 then RevBit(len, dist, i', 2 * m, left - 1, align)
      else AfterRev(len, dist + i' - 2 * m, align)
  }

  lemma AfterSlotOk(len: nat, slot: nat)
    requires 2 <= len <= 273 && slot < 64
    ensures NodeOk(AfterSlot(len, slot))
    ensures Adaptive(AfterSlot(len, slot)) <= 5
    ensures Adaptive(AfterSlot(len, slot)) == 5 ==> Direct(AfterSlot(len, slot)) == 0
    ensures Direct(AfterSlot(len, slot)) <= 26
  {
    if 4 <= slot < 14 {
      var k := slot / 2 - 1;
      assert k == 1 || k == 2 || k == 3 || k == 4 || k == 5;
      assert Scale(1, 1) == 2 && Scale(1, 2) == 4 && Scale(1, 3) == 8 && Scale(1, 4) == 16 && Scale(1, 5) == 32;
      assert Pow2(1) == 2 && Pow2(2) == 4 && Pow2(3) == 8 && Pow2(4) == 16 && Pow2(5) == 32;
    } else if slot >= 14 {
      assert Pow2(2) == 4;
      Pow2Mono(2, 28 - (slot / 2 - 5));
    }
  }

  lemma FollowLit(x: Ctx, n: Node, b: bool)
    requires NodeOk(n) && n.LitBit?
    ensures NodeOk(Follow(x, n, b)) && Steps(Follow(x, n, b)) < Steps(n)
  {
    LevelBound(n.sym, 8);
    assert Level(2 * n.sym + Bit(b)) == 1 + Level(n.sym);
  }

  lemma FollowLen(x: Ctx, n: Node, b: bool)
    requires NodeOk(n) && n.LenBit?
    ensures NodeOk(Follow(x, n, b)) && Steps(Follow(x, n, b)) < Steps(n)
  {
    hide Pow2, AfterLen;
    var m' := 2 * n.m + Bit(b);
    assert Level(m') == 1 + Level(n.m);
    LevelBound(n.m, if n.band.Far? then 8 else 3);
    LevelBound(m', if n.band.Far? then 8 else 3);
    BandPowers();
    if m' >= BandLimit(n.band) {
      AfterLenOk(n.kind, LenOf(n.band, m'));
    }
  }

  lemma BandPowers()
    ensures Pow2(3) == 8 && Pow2(6) == 64 && Pow2(8) == 256
  {
  }

  lemma AfterLenOk(k: Kind, len: nat)
    requires KindOk(k) && len <= 271
    ensures NodeOk(AfterLen(k, len))
    ensures Steps(AfterLen(k, len)) == if k.NewMatch? then 36 else 0
  {
  }

  lemma FollowSlot(x: Ctx, n: Node, b: bool)
    requires NodeOk(n) && n.SlotBit?
    ensures NodeOk(Follow(x, n, b)) && Steps(Follow(x, n, b)) < Steps(n)
  {
    hide Pow2, AfterSlot;
    var m' := 2 * n.m + Bit(b);
    LevelBound(n.m, 6);
    LevelBound(m', 6);
    BandPowers();
    assert Level(m') == 1 + Level(n.m);
    if m' >= 64 { AfterSlotOk(n.len, m' % 64); }
  }

  lemma FollowDirect(x: Ctx, n: Node, b: bool)
    requires NodeOk(n) && n.DirectBit?
    ensures NodeOk(Follow(x, n, b)) && Steps(Follow(x, n, b)) < Steps(n)
  {
    if n.left == 1 {
      LastDirect(x, n, b);
    } else {
      DirectGrows(n.dist, n.left);
    }
  }

  lemma LastDirect(x: Ctx, n: Node, b: bool)
    requires NodeOk(n) && n.DirectBit? && n.left == 1
    ensures NodeOk(Follow(x, n, b)) && Steps(Follow(x, n, b)) < Steps(n)
  {
    hide NodeOk, Pow2, Scale;
    assert n.dist < Pow2(27) && 2 <= n.len <= 273 by { DirectNode(n); }
    DirectRange(n.dist);
    AlignOk(n.len, 2 * n.dist + Bit(b));
    assert Follow(x, n, b) == RevBit(n.len, 16 * (2 * n.dist + Bit(b)), 1, 1, 4, true);
  }

  lemma DirectNode(n: Node)
    requires NodeOk(n) && n.DirectBit?
    ensures n.dist < Pow2(28 - n.left) && 2 <= n.len <= 273
  {
  }

  lemma DirectGrows(dist: nat, left: nat)
    requires 2 <= left <= 26 && dist < Pow2(28 - left)
    ensures 2 * dist + 1 < Pow2(28 - (left - 1))
  {
    assert Pow2(29 - left) == 2 * Pow2(28 - left);
  }

  lemma AlignOk(len: nat, d: nat)
    requires 2 <= len <= 273 && 16 * d + 16 <= U32
    ensures NodeOk(RevBit(len, 16 * d, 1, 1, 4, true))
  {
    assert Scale(1, 4) == 16;
  }

  lemma FollowRev(x: Ctx, n: Node, b: bool)
    requires NodeOk(n) && n.RevBit?
    ensures NodeOk(Follow(x, n, b)) && Steps(Follow(x, n, b)) < Steps(n)
  {
    ScaleAtLeast(2 * n.m, n.left - 1);
  }

  /** Following an edge keeps the node valid and uses up one of the decisions allowed. */
  lemma FollowOk(x: Ctx, n: Node, b: bool)
    requires NodeOk(n) && !n.Done?
    ensures NodeOk(Follow(x, n, b)) && Steps(Follow(x, n, b)) < Steps(n)
  {
    match n
    case LitBit(_, _, _) => FollowLit(x, n, b);
    case LenBit(_, _, _) => FollowLen(x, n, b);
    case SlotBit(_, _) => FollowSlot(x, n, b);
    case DirectBit(_, _, _) => FollowDirect(x, n, b);
    case RevBit(_, _, _, _, _, _) => FollowRev(x, n, b);
    case _ =>
  }

  lemma DirectRange(dist: nat)
    requires dist < Pow2(27)
    ensures 16 * (2 * dist + 1) + 16 <= U32
  {
    hide Pow2;
    Pow2Word();
    Pow2Sum(27, 5);
    assert Pow2(5) == 32 by { Pow2Five(); }
  }

  lemma Pow2Five()
    ensures Pow2(5) == 32
  {
  }

  function Next(x: Ctx, n: Node, b: bool): (r: Node)
    requires NodeOk(n) && !n.Done?
    ensures NodeOk(r) && Steps(r) < Steps(n)
  {
    FollowOk(x, n, b);
    Follow(x, n, b)
  }

  // ---- Probability slots

  predicate Reads(n: Node) {
    !n.Done? && !n.DirectBit?
  }

  function LenCoder(k: Kind): nat {
    if k.NewMatch? then LEN_CODER else REP_LEN_CODER
  }

  function BandStart(x: Ctx, band: Band): nat {
    match band
    case Near => 16 * x.posState
    case Mid => 16 * x.posState + 8
    case Far => 256
  }

  function LenState(len: nat): nat
    requires len >= 2
  {
    if len - 2 < 4 then len - 2 else 3
  }

  /** The table slot a decision reads. */
  function Slot(x: Ctx, n: Node): nat
    requires NodeOk(n) && Reads(n)
  {
    match n
    case IsMatch => IS_MATCH + 16 * x.posState + x.state
    case LitBit(sym, mb, same) =>
      x.lit + (if same then (if mb >= 128 then 0x200 else 0x100) else 0) + sym
    case IsRep => IS_REP + x.state
    case IsRepG0 => IS_REP_G0 + x.state
    case IsRep0Long => IS_REP0_LONG + 16 * x.posState + x.state
    case IsRepG1 => IS_REP_G1 + x.state
    case IsRepG2 => IS_REP_G2 + x.state
    case LenChoice(k) => LenCoder(k)
    case LenChoice2(k) => LenCoder(k) + 8
    case LenBit(k, band, m) => LenCoder(k) + BandStart(x, band) + m
    case SlotBit(len, m) => POS_SLOT + 64 * LenState(len) + m
    case RevBit(_, dist, i, _, _, align) => if align then ALIGN + i else SPEC_POS + dist + i
  }

  /** The part of the table that belongs to the role of a decision, as `[lo, hi)`. */
  function Region(x: Ctx, n: Node): (nat, nat)
    requires Reads(n)
  {
    match n
    case IsMatch => (IS_MATCH, ALIGN)
    case LitBit(_, _, _) => (x.lit, x.lit + LIT_SIZE)
    case IsRep => (IS_REP, IS_REP_G0)
    case IsRepG0 => (IS_REP_G0, IS_REP_G1)
    case IsRep0Long => (IS_REP0_LONG, REP_LEN_CODER)
    case IsRepG1 => (IS_REP_G1, IS_REP_G2)
    case IsRepG2 => (IS_REP_G2, POS_SLOT)
    case LenChoice(k) => (LenCoder(k), LenCoder(k) + 512)
    case LenChoice2(k) => (LenCoder(k), LenCoder(k) + 512)
    case LenBit(k, _, _) => (LenCoder(k), LenCoder(k) + 512)
    case SlotBit(_, _) => (POS_SLOT, LITERAL)
    case RevBit(_, _, _, _, _, align) => if align then (ALIGN, IS_REP) else (SPEC_POS, IS_REP0_LONG)
  }

  /** Every slot lies inside its own role's region, and so inside the table. */
  lemma SlotInRegion(x: Ctx, n: Node)
    requires CtxOk(x) && NodeOk(n) && Reads(n)
    ensures Region(x, n).0 <= Slot(x, n) < Region(x, n).1 <= x.lit + LIT_SIZE
  {
    if n.RevBit? { ScaleAtLeast(n.m, n.left); }
  }

  function SlotOf(x: Ctx, n: Node, probs: seq<nat>): (s: nat)
    requires NodeOk(n) && Reads(n) && Fits(x, probs)
    ensures s == Slot(x, n) < |probs|
  {
    SlotInRegion(x, n);
    Slot(x, n)
  }

  // ---- Walking the graph

  /** Where a walk stands: the decision to take, the coder, the probability table. */
  datatype Place = Place(node: Node, coder: Coder, probs: seq<nat>)

  predicate PlaceOk(x: Ctx, w: Place) {
    NodeOk(w.node) && Fits(x, w.probs) && ProbsOk(w.probs) && CoderOk(w.coder)
  }

  predicate CanStep(x: Ctx, w: Place) {
    PlaceOk(x, w) && !Dry(w.coder) && !w.node.Done?
  }

  /** Take one decision: normalise, decode the bit, update its probability, follow the edge. */
  function Step(x: Ctx, w: Place): (r: Place)
    requires CanStep(x, w)
    ensures PlaceOk(x, r) && |r.probs| == |w.probs| && Steps(r.node) < Steps(w.node)
  {
    var c := Normal(w.coder);
    if w.node.DirectBit? then
      Place(Next(x, w.node, DirectOf(c)), AfterDirect(c), w.probs)
    else
      var s := SlotOf(x, w.node, w.probs);
      var p := w.probs[s];
      Place(Next(x, w.node, BitOf(c, p)), After(c, p), w.probs[s := NewProb(p, BitOf(c, p))])
  }

  datatype Outcome =
    | Starved
    | Finished(symbol: Symbol, coder: Coder, probs: seq<nat>)

  /** Decode from a place on, up to and including the closing normalisation. */
  function Run(x: Ctx, w: Place): (r: Outcome)
    requires PlaceOk(x, w)
    ensures r.Finished? ==>
              SymbolOk(r.symbol) && Ready(r.coder) && |r.probs| == |w.probs| && ProbsOk(r.probs)
    decreases Steps(w.node)
  {
    if Dry(w.coder) then Starved
    else if w.node.Done? then Finished(w.node.symbol, Normal(w.coder), w.probs)
    else Run(x, Step(x, w))
  }

  datatype DryOutcome =
    | DryStarved
    | DryFinished(symbol: Symbol, coder: Coder)

  /** The same walk with the probabilities left as they are. */
  function DryRun(x: Ctx, w: Place): (r: DryOutcome)
    requires PlaceOk(x, w)
    ensures r.DryFinished? ==> SymbolOk(r.symbol) && Ready(r.coder)
    decreases Steps(w.node)
  {
    if Dry(w.coder) then DryStarved
    else if w.node.Done? then DryFinished(w.node.symbol, Normal(w.coder))
    else DryRun(x, Step(x, w).(probs := w.probs))
  }

  // ---- The dry run agrees with the real run: no slot is read twice in a symbol

  predicate InRange(s: nat, lo: nat, hi: nat) {
    lo <= s < hi
  }

  /** Slots the distance part of a symbol of kind `k` may read. */
  predicate DistAhead(k: Kind, s: nat) {
    k.NewMatch? && (InRange(s, SPEC_POS, IS_REP0_LONG) || InRange(s, ALIGN, IS_REP) || InRange(s, POS_SLOT, LITERAL))
  }

  /** An upper bound on the slots that may be read at decision `n` or later. */
  predicate Ahead(x: Ctx, n: Node, s: nat)
    requires NodeOk(n)
  {
    match n
    case IsMatch => true
    case LitBit(sym, _, _) => s >= x.lit && (s - x.lit) % 0x100 >= sym
    case IsRep => s < IS_MATCH || InRange(s, ALIGN, LITERAL)
    case IsRepG0 => s < LEN_CODER || InRange(s, IS_REP_G0, POS_SLOT)
    case IsRep0Long => s < LEN_CODER
    case IsRepG1 => InRange(s, REP_LEN_CODER, LEN_CODER) || InRange(s, IS_REP_G1, POS_SLOT)
    case IsRepG2 => InRange(s, REP_LEN_CODER, LEN_CODER) || InRange(s, IS_REP_G2, POS_SLOT)
    case LenChoice(k) => InRange(s, LenCoder(k), LenCoder(k) + 512) || DistAhead(k, s)
    case LenChoice2(k) => InRange(s, LenCoder(k) + 8, LenCoder(k) + 512) || DistAhead(k, s)
    case LenBit(k, band, m) =>
      InRange(s, LenCoder(k) + BandStart(x, band) + m, LenCoder(k) + 512) || DistAhead(k, s)
    case SlotBit(len, m) =>
      InRange(s, SPEC_POS, IS_REP0_LONG) || InRange(s, ALIGN, IS_REP)
      || InRange(s, POS_SLOT + 64 * LenState(len) + m, LITERAL)
    case DirectBit(_, _, _) => InRange(s, ALIGN, IS_REP)
    case RevBit(_, dist, i, _, _, align) =>
      if align then InRange(s, ALIGN + i, IS_REP) else InRange(s, SPEC_POS + dist + i, IS_REP0_LONG)
    case Done(_) => false
  }

  lemma AheadNow(x: Ctx, n: Node)
    requires CtxOk(x) && NodeOk(n) && Reads(n)
    ensures Ahead(x, n, Slot(x, n))
  {
    SlotInRegion(x, n);
    if n.LitBit? {
      var k := if n.same then (if n.mb >= 128 then 2 else 1) else 0;
      assert Slot(x, n) - x.lit == 0x100 * k + n.sym;
    }
  }

  /** Whatever is read after `n` could be read from `n` on, and is not the slot of `n`. */
  lemma AheadNext(x: Ctx, n: Node, b: bool, s: nat)
    requires CtxOk(x) && NodeOk(n) && !n.Done?
    requires Ahead(x, Next(x, n, b), s)
    ensures Ahead(x, n, s)
    ensures Reads(n) ==> s != Slot(x, n)
  {
    hide Ahead, Slot, Follow, NodeOk;
    match n
    case LitBit(_, _, _) => AheadLit(x, n, b, s);
    case SlotBit(_, _) => AheadSlot(x, n, b, s);
    case LenBit(_, _, _) => AheadLen(x, n, b, s);
    case DirectBit(_, _, _) => AheadTail(x, n, b, s);
    case RevBit(_, _, _, _, _, _) => AheadTail(x, n, b, s);
    case _ => AheadFlag(x, n, b, s);
  }

  lemma AheadTail(x: Ctx, n: Node, b: bool, s: nat)
    requires CtxOk(x) && NodeOk(n) && (n.DirectBit? || n.RevBit?)
    requires Ahead(x, Next(x, n, b), s)
    ensures Ahead(x, n, s)
    ensures Reads(n) ==> s != Slot(x, n)
  {
    hide NodeOk;
    assert n.RevBit? ==> n.m >= 1 by { RevPositive(n); }
  }

  lemma RevPositive(n: Node)
    requires NodeOk(n)
    ensures n.RevBit? ==> n.m >= 1
  {
  }

  lemma AheadFlag(x: Ctx, n: Node, b: bool, s: nat)
    requires CtxOk(x) && NodeOk(n) && Reads(n)
    requires !n.LitBit? && !n.SlotBit? && !n.LenBit? && !n.RevBit?
    requires Ahead(x, Next(x, n, b), s)
    ensures Ahead(x, n, s) && s != Slot(x, n)
  {
    hide NodeOk, Region;
  }

  lemma AheadLit(x: Ctx, n: Node, b: bool, s: nat)
    requires CtxOk(x) && NodeOk(n) && n.LitBit?
    requires Ahead(x, Next(x, n, b), s)
    ensures Ahead(x, n, s) && s != Slot(x, n)
  {
    var k := if n.same then (if n.mb >= 128 then 2 else 1) else 0;
    assert Slot(x, n) - x.lit == 0x100 * k + n.sym;
  }

  lemma AheadSlot(x: Ctx, n: Node, b: bool, s: nat)
    requires CtxOk(x) && NodeOk(n) && n.SlotBit?
    requires Ahead(x, Next(x, n, b), s)
    ensures Ahead(x, n, s) && s != Slot(x, n)
  {
  }

  lemma AheadLen(x: Ctx, n: Node, b: bool, s: nat)
    requires CtxOk(x) && NodeOk(n) && n.LenBit?
    requires Ahead(x, Next(x, n, b), s)
    ensures Ahead(x, n, s) && s != Slot(x, n)
  {
    SlotInRegion(x, n);
  }

  /** Two places that differ at most in slots no longer needed. */
  predicate Agree(x: Ctx, v: Place, w: Place)
    requires NodeOk(v.node)
  {
    && v.node == w.node && v.coder == w.coder && |v.probs| == |w.probs|
    && forall s :: 0 <= s < |v.probs| && Ahead(x, v.node, s) ==> v.probs[s] == w.probs[s]
  }

  function Forget(r: Outcome): DryOutcome {
    match r
    case Starved => DryStarved
    case Finished(sym, c, _) => DryFinished(sym, c)
  }

  lemma StepAgrees(x: Ctx, v: Place, w: Place)
    requires CanStep(x, v) && CanStep(x, w) && Agree(x, v, w)
    ensures Agree(x, Step(x, v).(probs := v.probs), Step(x, w))
  {
    hide Ahead, Slot, Follow;
    var n, c := v.node, Normal(v.coder);
    if Reads(n) { AheadNow(x, n); }
    var n' := Step(x, v).node;
    forall s | 0 <= s < |v.probs| && Ahead(x, n', s) ensures v.probs[s] == Step(x, w).probs[s] {
      if Reads(n) {
        AheadNext(x, n, BitOf(c, v.probs[Slot(x, n)]), s);
      } else {
        AheadNext(x, n, DirectOf(c), s);
      }
    }
  }

  /** Updating probabilities as the symbol goes along does not change how it is read. */
  lemma {:induction false} DryRunAgrees(x: Ctx, v: Place, w: Place)
    requires PlaceOk(x, v) && PlaceOk(x, w) && Agree(x, v, w)
    ensures DryRun(x, v) == Forget(Run(x, w))
    decreases Steps(v.node)
  {
    hide Step, Ahead, Steps;
    if CanStep(x, v) {
      StepAgrees(x, v, w);
      DryRunAgrees(x, Step(x, v).(probs := v.probs), Step(x, w));
    }
  }

  // ---- Input: prefixes and the twenty-byte bound

  function Extend(c: Coder, more: seq<Byte>): Coder {
    c.(inp := c.inp + more)
  }

  function ExtendPlace(w: Place, more: seq<Byte>): Place {
    w.(coder := Extend(w.coder, more))
  }

  function ExtendOutcome(r: Outcome, more: seq<Byte>): Outcome {
    match r
    case Starved => Starved
    case Finished(sym, c, p) => Finished(sym, Extend(c, more), p)
  }

  lemma StepExtends(x: Ctx, w: Place, more: seq<Byte>)
    requires CanStep(x, w)
    ensures CanStep(x, ExtendPlace(w, more))
    ensures Step(x, ExtendPlace(w, more)) == ExtendPlace(Step(x, w), more)
  {
    hide Follow, Slot;
    NormalExtends(w.coder, more);
  }

  /** A symbol that is complete does not look at the bytes after it. */
  lemma {:induction false} RunExtends(x: Ctx, w: Place, more: seq<Byte>)
    requires PlaceOk(x, w) && Run(x, w).Finished?
    ensures PlaceOk(x, ExtendPlace(w, more))
    ensures Run(x, ExtendPlace(w, more)) == ExtendOutcome(Run(x, w), more)
    decreases Steps(w.node)
  {
    hide Step, Steps;
    NormalExtends(w.coder, more);
    if !w.node.Done? {
      StepExtends(x, w, more);
      RunExtends(x, Step(x, w), more);
    }
  }

  lemma NormalExtends(c: Coder, more: seq<Byte>)
    requires CoderOk(c) && !Dry(c)
    ensures !Dry(Extend(c, more))
    ensures Normal(Extend(c, more)) == Extend(Normal(c), more)
  {
    if c.range < TOP {
      assert (c.inp + more)[1..] == c.inp[1..] + more;
    }
  }

  predicate Suffix(a: seq<Byte>, b: seq<Byte>) {
    |a| <= |b| && a == b[|b| - |a|..]
  }

  lemma StepConsumes(x: Ctx, w: Place)
    requires CanStep(x, w)
    ensures Suffix(Step(x, w).coder.inp, w.coder.inp)
  {
    hide Follow, Slot, NodeOk, Fits, ProbsOk, Steps;
    assert Step(x, w).coder.inp == Normal(w.coder).inp;
  }

  /** The bytes left over are a suffix of the bytes given. */
  lemma {:induction false} RunConsumes(x: Ctx, w: Place)
    requires PlaceOk(x, w) && Run(x, w).Finished?
    ensures Suffix(Run(x, w).coder.inp, w.coder.inp)
    decreases Steps(w.node)
  {
    hide Step, Steps;
    if !w.node.Done? {
      StepConsumes(x, w);
      RunConsumes(x, Step(x, w));
    }
  }

  lemma StepShrinks(x: Ctx, w: Place, more: seq<Byte>)
    requires PlaceOk(x, w) && CanStep(x, ExtendPlace(w, more)) && |Step(x, ExtendPlace(w, more)).coder.inp| >= |more|
    ensures CanStep(x, w) && Step(x, ExtendPlace(w, more)) == ExtendPlace(Step(x, w), more)
  {
    hide Follow, Slot, NodeOk, Fits, ProbsOk, Steps;
    assert Step(x, ExtendPlace(w, more)).coder.inp == Normal(Extend(w.coder, more)).inp;
    StepExtends(x, w, more);
  }

  /** A symbol that leaves the last bytes unread is complete without them. */
  lemma {:induction false} RunShrinks(x: Ctx, w: Place, more: seq<Byte>)
    requires PlaceOk(x, w) && PlaceOk(x, ExtendPlace(w, more)) && Run(x, ExtendPlace(w, more)).Finished?
    requires |Run(x, ExtendPlace(w, more)).coder.inp| >= |more|
    ensures Run(x, w).Finished?
    decreases Steps(w.node)
  {
    hide Step, Steps;
    var e := ExtendPlace(w, more);
    if w.node.Done? {
      assert Normal(e.coder).inp == if e.coder.range < TOP then e.coder.inp[1..] else e.coder.inp;
    } else {
      RunConsumes(x, Step(x, e));
      StepShrinks(x, w, more);
      RunShrinks(x, Step(x, w), more);
    }
  }

  /** Normalising first changes nothing: every step starts by normalising. */
  lemma RunNormal(x: Ctx, w: Place)
    requires PlaceOk(x, w) && !Dry(w.coder)
    ensures Run(x, w.(coder := Normal(w.coder))) == Run(x, w)
  {
    hide Follow, Slot;
    var v := w.(coder := Normal(w.coder));
    assert !Dry(v.coder) && Normal(v.coder) == v.coder;
    if !w.node.Done? { assert Step(x, v) == Step(x, w); }
  }

  lemma {:induction false} CostMono(a: nat, d: nat, a': nat, d': nat)
    requires a <= a' && d <= d'
    ensures Cost(a, d) <= Cost(a', d')
    decreases a' + d'
  {
    if a < a' {
      CostMono(a, d, a' - 1, d');
    } else if a > 0 {
      CostMono(a - 1, d, a' - 1, d');
    } else if d < d' {
      CostMono(0, d, 0, d' - 1);
    } else if d > 0 {
      CostMono(0, d - 1, 0, d' - 1);
    }
  }

  /** The fifth low distance bit costs less than 26 direct bits. */
  lemma FiveForDirect()
    ensures Cost(5, 0) <= Cost(4, 26)
  {
    assert 67.0 * Cost(0, 0) <= Cost(0, 8);
    CostMono(0, 8, 0, 26);
    assert Cost(1, 0) <= Cost(0, 26);
    assert Cost(4, 26) == 67.0 * 67.0 * 67.0 * 67.0 * Cost(0, 26);
    assert Cost(5, 0) == 67.0 * 67.0 * 67.0 * 67.0 * Cost(1, 0);
  }

  lemma DirectStepCost(d: nat)
    requires d > 0
    ensures Cost(4, d) == 2.01 * Cost(4, d - 1)
  {
    assert Cost(1, d) == 67.0 * Cost(0, d) && Cost(1, d - 1) == 67.0 * Cost(0, d - 1);
    assert Cost(2, d) == 67.0 * Cost(1, d) && Cost(2, d - 1) == 67.0 * Cost(1, d - 1);
    assert Cost(3, d) == 67.0 * Cost(2, d) && Cost(3, d - 1) == 67.0 * Cost(2, d - 1);
  }

  lemma PlainStep(x: Ctx, n: Node, b: bool)
    requires NodeOk(n) && Reads(n)
    requires n.SlotBit? ==> 2 * n.m + Bit(b) < 64
    ensures Adaptive(Next(x, n, b)) < Adaptive(n)
    ensures Direct(Next(x, n, b)) <= Direct(n)
  {
    match n
    case LitBit(sym, _, _) => PlainLit(x, n, b);
    case LenBit(_, band, m) => PlainLen(x, n, b);
    case SlotBit(_, m) => PlainSlot(x, n, b);
    case _ =>
  }

  lemma PlainLit(x: Ctx, n: Node, b: bool)
    requires NodeOk(n) && n.LitBit?
    ensures Adaptive(Next(x, n, b)) < Adaptive(n) && Direct(Next(x, n, b)) <= Direct(n)
  {
    LevelBound(n.sym, 8);
    assert Level(2 * n.sym + Bit(b)) == 1 + Level(n.sym);
  }

  lemma PlainLen(x: Ctx, n: Node, b: bool)
    requires NodeOk(n) && n.LenBit?
    ensures Adaptive(Next(x, n, b)) < Adaptive(n) && Direct(Next(x, n, b)) <= Direct(n)
  {
    LevelBound(n.m, if n.band.Far? then 8 else 3);
    assert Level(2 * n.m + Bit(b)) == 1 + Level(n.m);
  }

  lemma PlainSlot(x: Ctx, n: Node, b: bool)
    requires NodeOk(n) && n.SlotBit? && 2 * n.m + Bit(b) < 64
    ensures Adaptive(Next(x, n, b)) < Adaptive(n) && Direct(Next(x, n, b)) <= Direct(n)
  {
    LevelBound(n.m, 6);
    assert Level(2 * n.m + Bit(b)) == 1 + Level(n.m);
  }

  /** The last distance-slot bit: what follows is direct bits and the align bits, or at most five bits. */
  lemma LastSlot(x: Ctx, n: Node, b: bool)
    requires NodeOk(n) && n.SlotBit? && 2 * n.m + Bit(b) >= 64
    ensures Adaptive(n) == 5 && Direct(n) == 26
    ensures Cost(4, 26) >= Cost(Adaptive(Next(x, n, b)), Direct(Next(x, n, b)))
  {
    hide Cost, Pow2, AfterSlot, Level;
    var n' := Next(x, n, b);
    assert n' == AfterSlot(n.len, (2 * n.m + Bit(b)) % 64);
    AfterSlotOk(n.len, (2 * n.m + Bit(b)) % 64);
    LevelBound(n.m, 6);
    LevelBound(n.m, 5);
    Pow2Five();
    BandPowers();
    CostAtMostFive(Adaptive(n'), Direct(n'));
  }

  lemma CostAtMostFive(a: nat, d: nat)
    requires (a <= 4 && d <= 26) || (a == 5 && d == 0)
    ensures Cost(a, d) <= Cost(4, 26)
  {
    hide Cost;
    if a <= 4 { CostMono(a, d, 4, 26); } else { FiveForDirect(); }
  }

  /** Each decision is paid for by the drop in what is still to come. */
  lemma StepCost(x: Ctx, n: Node, b: bool)
    requires NodeOk(n) && !n.Done?
    ensures n.DirectBit? ==> Cost(Adaptive(n), Direct(n)) >= 2.01 * Cost(Adaptive(Next(x, n, b)), Direct(Next(x, n, b)))
    ensures !n.DirectBit? ==> Cost(Adaptive(n), Direct(n)) >= 67.0 * Cost(Adaptive(Next(x, n, b)), Direct(Next(x, n, b)))
  {
    hide NodeOk, Follow;
    if n.DirectBit? {
      DirectStep(x, n, b);
    } else if n.SlotBit? && 2 * n.m + Bit(b) >= 64 {
      LastSlot(x, n, b);
    } else {
      PlainStep(x, n, b);
      CostMono(Adaptive(Next(x, n, b)), Direct(Next(x, n, b)), Adaptive(n) - 1, Direct(n));
    }
  }

  lemma DirectStep(x: Ctx, n: Node, b: bool)
    requires NodeOk(n) && n.DirectBit?
    ensures Cost(Adaptive(n), Direct(n)) == 2.01 * Cost(Adaptive(Next(x, n, b)), Direct(Next(x, n, b)))
  {
    DirectStepCost(n.left);
    assert Adaptive(Next(x, n, b)) == 4 && Direct(Next(x, n, b)) == n.left - 1;
  }

  predicate FedPlace(w: Place)
    requires NodeOk(w.node)
  {
    Fuel(w.coder.range as real, |w.coder.inp|) >= Cost(Adaptive(w.node), Direct(w.node))
  }

  lemma NormalFuel(c: Coder)
    requires CoderOk(c) && !Dry(c)
    ensures Fuel(Normal(c).range as real, |Normal(c).inp|) == Fuel(c.range as real, |c.inp|)
  {
    if c.range < TOP { FuelShift(c.range as real, |c.inp| - 1); }
  }

  lemma StepFed(x: Ctx, w: Place)
    requires CanStep(x, w) && FedPlace(w)
    ensures FedPlace(Step(x, w))
  {
    hide Follow, Slot, Adaptive, Direct, Cost, Fuel, After, AfterDirect, NodeOk;
    var c := Normal(w.coder);
    NormalFuel(w.coder);
    if w.node.DirectBit? {
      Shrink(c, PROB_INIT);
      FuelShrink(c.range as real, AfterDirect(c).range as real, |c.inp|);
      StepCost(x, w.node, DirectOf(c));
    } else {
      var p := w.probs[SlotOf(x, w.node, w.probs)];
      Shrink(c, p);
      FuelShrink(c.range as real, After(c, p).range as real, |c.inp|);
      StepCost(x, w.node, BitOf(c, p));
    }
  }

  /** With enough fuel a symbol and its closing normalisation never run out of input. */
  lemma {:induction false} FedFinishes(x: Ctx, w: Place)
    requires PlaceOk(x, w) && FedPlace(w)
    ensures Run(x, w).Finished?
    decreases Steps(w.node)
  {
    assert !Dry(w.coder);
    if !w.node.Done? {
      FedStep(x, w);
    }
  }

  lemma {:induction false} FedStep(x: Ctx, w: Place)
    requires CanStep(x, w) && FedPlace(w)
    ensures Run(x, w).Finished?
    decreases Steps(w.node), 0
  {
    hide Step, FedPlace, NodeOk, Steps;
    StepFed(x, w);
    FedFinishes(x, Step(x, w));
  }

  /** Twenty bytes are enough for any symbol from any normalised coder. */
  lemma TwentyBytesDecode(x: Ctx, c: Coder, probs: seq<nat>)
    requires Fits(x, probs) && ProbsOk(probs) && Ready(c) && |c.inp| >= 20
    ensures Run(x, Place(IsMatch, c, probs)).Finished?
  {
    hide Follow, Slot, Fuel, Cost;
    TwentyBytes();
    FuelMono(TOP as real, c.range as real, 20, |c.inp|);
    FedFinishes(x, Place(IsMatch, c, probs));
  }

  /** ... and no symbol ever takes more than twenty bytes. */
  lemma AtMostTwentyBytes(x: Ctx, c: Coder, probs: seq<nat>)
    requires Fits(x, probs) && ProbsOk(probs) && Ready(c)
    requires Run(x, Place(IsMatch, c, probs)).Finished?
    ensures |Run(x, Place(IsMatch, c, probs)).coder.inp| >= |c.inp| - 20
  {
    hide Step;
    if |c.inp| > 20 {
      var head := c.(inp := c.inp[..20]);
      TwentyBytesDecode(x, head, probs);
      RunExtends(x, Place(IsMatch, head, probs), c.inp[20..]);
      assert Extend(head, c.inp[20..]) == c;
    }
  }
}
