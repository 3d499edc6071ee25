/**
 * A plain reference decoder in the manner of the LZMA specification by Igor Pavlov: a
 * separate probability tree for every role, bit trees and reverse bit trees by recursion,
 * normalisation after every bit, matches copied at once. It is proved to decode exactly as
 * the packed table and the decision graph do.
 */
module LzmaFormat {
  import opened Wrappers
  import opened LzmaBits
  import opened LzmaRange
  import opened LzmaSymbol
  import opened LzmaStream

  /** What a probability is for. Literal trees come in three kinds: plain, and with match bit 0 or 1. */
  datatype Role =
    | MatchFlag(state: nat, posState: nat)
    | RepFlag(state: nat)
    | Rep0Flag(state: nat)
    | Rep0LongFlag(state: nat, posState: nat)
    | Rep1Flag(state: nat)
    | Rep2Flag(state: nat)
    | Literal(index: nat, matched: nat)
    | Choice(rep: bool)
    | Choice2(rep: bool)
    | LowLen(rep: bool, posState: nat)
    | MidLen(rep: bool, posState: nat)
    | HighLen(rep: bool)
    | DistSlot(lenState: nat)
    | Special(slot: nat)
    | Align

  /** Node `m` of the bit tree of a role; flags are trees of the single node 1. */
  datatype Key = Key(role: Role, m: nat)

  function TreeSize(r: Role): nat {
    match r
    case Literal(_, _) => 256
    case LowLen(_, _) => 8
    case MidLen(_, _) => 8
    case HighLen(_) => 256
    case DistSlot(_) => 64
    case Special(slot) => if slot < 4 then 0 else Pow2(slot / 2 - 1)
    case Align => 16
    case _ => 2
  }

  /** The keys that exist in a table of `size` slots. */
  predicate KeyOk(k: Key, size: nat) {
    && 1 <= k.m < TreeSize(k.role)
    && match k.role
       case MatchFlag(s, p) => s < 12 && p < 16
       case Rep0LongFlag(s, p) => s < 12 && p < 16
       case Literal(index, matched) => matched < 3 && LITERAL + LIT_SIZE * (index + 1) <= size
       case LowLen(_, p) => p < 16
       case MidLen(_, p) => p < 16
       case DistSlot(l) => l < 4
       case Special(slot) => 4 <= slot < 14
       case Choice(_) => true
       case Choice2(_) => true
       case HighLen(_) => true
       case Align => true
       case _ => k.role.state < 12
  }

  /** Probabilities by role; those never used are at their initial value. */
  type Table = t: map<Key, nat> | forall k :: k in t ==> ProbOk(t[k]) witness map[]

  function Get(t: Table, k: Key): (p: nat)
    ensures ProbOk(p)
  {
    if k in t then t[k] else PROB_INIT
  }

  type Registers = c: Coder | Ready(c) witness Coder(TOP, 0, [])

  /** Nothing when the input runs out; otherwise a value and what the coder and the table became. */
  datatype Got<+T> = Short | Got(value: T, c: Registers, t: Table) {
    predicate IsFailure() {
      Short?
    }
    function PropagateFailure<U>(): Got<U>
      requires Short?
    {
      Short
    }
    function Extract(): (T, Registers, Table)
      requires Got?
    {
      (value, c, t)
    }
  }

  // ---- The reference decoder of one symbol

  function DecodeBit(c: Registers, t: Table, k: Key): Got<bool> {
    var p := Get(t, k);
    var b := BitOf(c, p);
    var d := After(c, p);
    if Dry(d) then Short else Got(b, Normal(d), t[k := NewProb(p, b)])
  }

  /** The most significant bit comes first. */
  function BitTree(c: Registers, t: Table, r: Role, m: nat, size: nat): Got<nat>
    requires 1 <= m
    decreases size - m
  {
    if m >= size then Got(m - size, c, t)
    else
      var (b, c', t') :- DecodeBit(c, t, Key(r, m));
      BitTree(c', t', r, 2 * m + Bit(b), size)
  }

  /** The least significant bit comes first. */
  function ReverseTree(c: Registers, t: Table, r: Role, m: nat, n: nat): Got<nat>
    decreases n
  {
    if n == 0 then Got(0, c, t)
    else
      var (b, c', t') :- DecodeBit(c, t, Key(r, m));
      var (rest, c'', t'') :- ReverseTree(c', t', r, 2 * m + Bit(b), n - 1);
      Got(Bit(b) + 2 * rest, c'', t'')
  }

  /** Equiprobable bits, the most significant first. */
  function DirectBits(c: Registers, t: Table, n: nat): Got<nat>
    decreases n
  {
    if n == 0 then Got(0, c, t)
    else
      var d := AfterDirect(c);
      if Dry(d) then Short
      else
        var (rest, c', t') :- DirectBits(Normal(d), t, n - 1);
        Got(Bit(DirectOf(c)) * Pow2(n - 1) + rest, c', t')
  }

  /** As long as the bits follow the match byte, its next bit selects the tree. */
  function DecodeLiteral(c: Registers, t: Table, index: nat, sym: nat, matchByte: Byte, matched: bool): Got<Byte>
    requires 1 <= sym < 0x200
    decreases 0x200 - sym
  {
    if sym >= 0x100 then Got(sym - 0x100, c, t)
    else
      var kind := if matched then 1 + matchByte / 128 else 0;
      var (b, c', t') :- DecodeBit(c, t, Key(Literal(index, kind), sym));
      DecodeLiteral(c', t', index, 2 * sym + Bit(b), matchByte * 2 % 256, matched && Bit(b) == matchByte / 128)
  }

  /** A length, less the two that every match has. */
  function DecodeLength(c: Registers, t: Table, rep: bool, posState: nat): Got<nat> {
    var (long, c1, t1) :- DecodeBit(c, t, Key(Choice(rep), 1));
    if !long then BitTree(c1, t1, LowLen(rep, posState), 1, 8)
    else
      var (longer, c2, t2) :- DecodeBit(c1, t1, Key(Choice2(rep), 1));
      if !longer then
        var (v, c3, t3) :- BitTree(c2, t2, MidLen(rep, posState), 1, 8);
        Got(8 + v, c3, t3)
      else
        var (v, c3, t3) :- BitTree(c2, t2, HighLen(rep), 1, 256);
        Got(16 + v, c3, t3)
  }

  /** The part of a distance that its slot fixes. */
  function SlotBase(slot: nat): nat {
    if slot < 4 then slot else (2 + slot % 2) * Pow2(slot / 2 - 1)
  }

  function DecodeFar(c: Registers, t: Table, bits: nat): Got<nat> {
    var (high, c1, t1) :- DirectBits(c, t, bits);
    var (low, c2, t2) :- ReverseTree(c1, t1, Align, 1, 4);
    Got(16 * high + low, c2, t2)
  }

  function DecodeDistance(c: Registers, t: Table, length: nat): Got<nat> {
    var (slot, c1, t1) :- BitTree(c, t, DistSlot(if length < 4 then length else 3), 1, 64);
    if slot < 4 then Got(slot, c1, t1)
    else
      var (low, c2, t2) :- if slot < 14 then ReverseTree(c1, t1, Special(slot), 1, slot / 2 - 1)
                           else DecodeFar(c1, t1, slot / 2 - 5);
      Got(SlotBase(slot) + low, c2, t2)
  }

  function DecodeRepMatch(c: Registers, t: Table, posState: nat, which: nat): Got<Symbol> {
    var (length, c', t') :- DecodeLength(c, t, true, posState);
    Got(Copy(Rep(which), length + 2, 0), c', t')
  }

  function DecodeMatch(c: Registers, t: Table, posState: nat): Got<Symbol> {
    var (length, c1, t1) :- DecodeLength(c, t, false, posState);
    var (distance, c2, t2) :- DecodeDistance(c1, t1, length);
    Got(if distance == U32 - 1 then EndMark else Copy(NewMatch, length + 2, distance), c2, t2)
  }

  function DecodeRep(c: Registers, t: Table, state: nat, posState: nat): Got<Symbol> {
    var (older, c1, t1) :- DecodeBit(c, t, Key(Rep0Flag(state), 1));
    if !older then
      var (long, c2, t2) :- DecodeBit(c1, t1, Key(Rep0LongFlag(state, posState), 1));
      if long then DecodeRepMatch(c2, t2, posState, 0) else Got(ShortRep, c2, t2)
    else
      var (older1, c2, t2) :- DecodeBit(c1, t1, Key(Rep1Flag(state), 1));
      if !older1 then DecodeRepMatch(c2, t2, posState, 1)
      else
        var (older2, c3, t3) :- DecodeBit(c2, t2, Key(Rep2Flag(state), 1));
        DecodeRepMatch(c3, t3, posState, if older2 then 3 else 2)
  }

  function DecodeSymbol(c: Registers, t: Table, state: nat, posState: nat, index: nat, matchByte: Byte): Got<Symbol> {
    var (isMatch, c1, t1) :- DecodeBit(c, t, Key(MatchFlag(state, posState), 1));
    if !isMatch then
      var (byte, c2, t2) :- DecodeLiteral(c1, t1, index, 1, matchByte, state >= 7);
      Got(Lit(byte), c2, t2)
    else
      var (isRep, c2, t2) :- DecodeBit(c1, t1, Key(RepFlag(state), 1));
      if isRep then DecodeRep(c2, t2, state, posState) else DecodeMatch(c2, t2, posState)
  }

  // ---- Distances and their slots

  /** How many bits of a distance its slot leaves open. */
  function OpenBits(slot: nat): nat {
    if slot < 4 then 0 else slot / 2 - 1
  }

  /** A distance that starts with a slot. */
  predicate Covers(slot: nat, dist: nat) {
    SlotBase(slot) <= dist < SlotBase(slot) + Pow2(OpenBits(slot))
  }

  /** Every slot starts where the one before it ends. */
  lemma SlotsMeet(slot: nat)
    ensures SlotBase(slot + 1) == SlotBase(slot) + Pow2(OpenBits(slot))
  {
    if slot >= 3 { assert (slot + 1) / 2 - 1 == if slot % 2 == 0 then slot / 2 - 1 else slot / 2; }
  }

  lemma {:induction false} SlotsApart(s: nat, t: nat)
    requires s < t
    ensures SlotBase(s) + Pow2(OpenBits(s)) <= SlotBase(t)
    decreases t
  {
    hide SlotBase, Pow2, OpenBits;
    SlotsMeet(t - 1);
    if s < t - 1 { SlotsApart(s, t - 1); }
  }

  /** Up to a slot, distances have one. */
  lemma {:induction false} SlotFound(dist: nat, t: nat) returns (slot: nat)
    requires dist < SlotBase(t)
    ensures slot < t && Covers(slot, dist)
    decreases t
  {
    hide Pow2, OpenBits;
    SlotsMeet(t - 1);
    if dist < SlotBase(t - 1) { slot := SlotFound(dist, t - 1); } else { slot := t - 1; }
  }

  /** The 64 slots divide the distances below 2^32 among them. */
  lemma SlotsPartition(dist: nat)
    ensures dist < U32 <==> exists slot :: slot < 64 && Covers(slot, dist)
    ensures forall s, t :: Covers(s, dist) && Covers(t, dist) ==> s == t
  {
    hide Covers;
    assert SlotBase(64) == 2 * Pow2(31) == Pow2(32) == U32 by { Pow2Word(); }
    if dist < U32 {
      var slot := SlotFound(dist, 64);
    }
    forall s, t | Covers(s, dist) && Covers(t, dist) ensures s == t {
      CoveredOnce(s, t, dist);
    }
    if slot :| slot < 64 && Covers(slot, dist) {
      CoversBelow(slot, dist, 64);
    }
  }

  lemma CoversBelow(slot: nat, dist: nat, t: nat)
    requires slot < t && Covers(slot, dist)
    ensures dist < SlotBase(t)
  {
    SlotsApart(slot, t);
  }

  lemma CoveredOnce(s: nat, t: nat, dist: nat)
    requires Covers(s, dist) && Covers(t, dist)
    ensures s == t
  {
    if s < t { SlotsApart(s, t); } else if t < s { SlotsApart(t, s); }
  }

  lemma {:induction false} BitTreeValue(c: Registers, t: Table, r: Role, m: nat, k: nat, n: nat)
    requires Pow2(k) <= m < 2 * Pow2(k) && k <= n
    ensures var g := BitTree(c, t, r, m, Pow2(n)); g.Got? ==> g.value < Pow2(n)
    decreases n - k
  {
    hide DecodeBit;
    if k < n {
      Pow2Mono(k + 1, n);
      var g := DecodeBit(c, t, Key(r, m));
      if g.Got? { BitTreeValue(g.c, g.t, r, 2 * m + Bit(g.value), k + 1, n); }
    }
  }

  lemma {:induction false} ReverseTreeValue(c: Registers, t: Table, r: Role, m: nat, n: nat)
    ensures var g := ReverseTree(c, t, r, m, n); g.Got? ==> g.value < Pow2(n)
    decreases n
  {
    hide DecodeBit;
    if n > 0 {
      var g := DecodeBit(c, t, Key(r, m));
      if g.Got? { ReverseTreeValue(g.c, g.t, r, 2 * m + Bit(g.value), n - 1); }
    }
  }

  lemma {:induction false} DirectBitsValue(c: Registers, t: Table, n: nat)
    ensures var g := DirectBits(c, t, n); g.Got? ==> g.value < Pow2(n)
    decreases n
  {
    hide AfterDirect, Normal, DirectOf;
    if n > 0 && !Dry(AfterDirect(c)) { DirectBitsValue(Normal(AfterDirect(c)), t, n - 1); }
  }

  lemma FarValue(c: Registers, t: Table, n: nat)
    ensures var g := DecodeFar(c, t, n); g.Got? ==> g.value < Pow2(n + 4)
  {
    hide ReverseTree, DirectBits, DecodeBit;
    DirectBitsValue(c, t, n);
    var high := DirectBits(c, t, n);
    if high.Got? { ReverseTreeValue(high.c, high.t, Align, 1, 4); }
    assert Pow2(4) == 16;
    Pow2Sum(n, 4);
  }

  /** A decoded distance is one that starts with the slot decoded first; so it fits 32 bits and has no other slot. */
  lemma DistanceHasSlot(c: Registers, t: Table, length: nat)
    ensures var first := BitTree(c, t, DistSlot(if length < 4 then length else 3), 1, 64);
            var all := DecodeDistance(c, t, length);
            all.Got? ==> first.Got? && first.value < 64 && Covers(first.value, all.value) && all.value < U32
  {
    hide BitTree, ReverseTree, DecodeFar, Pow2;
    var first := BitTree(c, t, DistSlot(if length < 4 then length else 3), 1, 64);
    SmallPowers();
    Pow2Sum(5, 1);
    BitTreeValue(c, t, DistSlot(if length < 4 then length else 3), 1, 0, 6);
    if first.Got? {
      var slot := first.value;
      if 4 <= slot < 14 {
        ReverseTreeValue(first.c, first.t, Special(slot), 1, slot / 2 - 1);
      } else if slot >= 14 {
        FarValue(first.c, first.t, slot / 2 - 5);
      }
      if DecodeDistance(c, t, length).Got? { SlotsPartition(DecodeDistance(c, t, length).value); }
    }
  }

  // ---- The packed table

  /** Where the tree of a role starts in the packed table. */
  function TreeBase(r: Role): nat {
    match r
    case MatchFlag(state, posState) => IS_MATCH + 16 * posState + state
    case RepFlag(state) => IS_REP + state
    case Rep0Flag(state) => IS_REP_G0 + state
    case Rep0LongFlag(state, posState) => IS_REP0_LONG + 16 * posState + state
    case Rep1Flag(state) => IS_REP_G1 + state
    case Rep2Flag(state) => IS_REP_G2 + state
    case Literal(index, matched) => LITERAL + LIT_SIZE * index + 0x100 * matched
    case Choice(rep) => LenStart(rep)
    case Choice2(rep) => LenStart(rep) + 8
    case LowLen(rep, posState) => LenStart(rep) + 16 * posState
    case MidLen(rep, posState) => LenStart(rep) + 16 * posState + 8
    case HighLen(rep) => LenStart(rep) + 256
    case DistSlot(lenState) => POS_SLOT + 64 * lenState
    case Special(slot) => SPEC_POS + SlotBase(slot)
    case Align => ALIGN
  }

  function LenStart(rep: bool): nat {
    if rep then REP_LEN_CODER else LEN_CODER
  }

  predicate IsFlag(r: Role) {
    r.MatchFlag? || r.RepFlag? || r.Rep0Flag? || r.Rep0LongFlag? || r.Rep1Flag? || r.Rep2Flag? || r.Choice? || r.Choice2?
  }

  predicate Reversed(r: Role) {
    r.Special? || r.Align?
  }

  /** Reverse trees are stored with the bits of a node number, below its highest, in opposite order. */
  function Mirror(m: nat): nat
    requires m >= 1
  {
    if m == 1 then 1 else Mirror(m / 2) + (if m % 2 == 1 then 2 * Pow2(Level(m / 2)) else Pow2(Level(m / 2)))
  }

  function Address(k: Key): nat
    requires k.m >= 1
  {
    TreeBase(k.role) + (if IsFlag(k.role) then 0 else if Reversed(k.role) then Mirror(k.m) else k.m)
  }

  /** Mirroring keeps the level of a node. */
  lemma {:induction false} MirrorLevel(m: nat)
    requires m >= 1
    ensures Pow2(Level(m)) <= Mirror(m) < 2 * Pow2(Level(m))
  {
    if m > 1 { MirrorLevel(m / 2); }
  }

  lemma {:induction false} PowersApart(m: nat, n: nat)
    requires m >= 1 && n >= 1 && Mirror(m) == Mirror(n)
    ensures Level(m) == Level(n)
  {
    MirrorLevel(m);
    MirrorLevel(n);
    if Level(m) < Level(n) {
      Pow2Mono(Level(m) + 1, Level(n));
    } else if Level(n) < Level(m) {
      Pow2Mono(Level(n) + 1, Level(m));
    }
  }

  lemma MirrorStep(m: nat)
    requires m > 1
    ensures var w := Pow2(Level(m / 2));
            Mirror(m) == Mirror(m / 2) + (if m % 2 == 1 then 2 * w else w) && w <= Mirror(m / 2) < 2 * w
    ensures Level(m) == 1 + Level(m / 2)
  {
    MirrorLevel(m / 2);
  }

  lemma LevelOne(m: nat)
    requires m >= 1
    ensures Level(m) == 0 <==> m == 1
  {
  }

  /** No two nodes share a place in a mirrored tree. */
  lemma {:induction false} MirrorUnique(m: nat, n: nat)
    requires m >= 1 && n >= 1 && Mirror(m) == Mirror(n)
    ensures m == n
  {
    hide Mirror, Level, Pow2;
    PowersApart(m, n);
    LevelOne(m);
    LevelOne(n);
    if m > 1 && n > 1 {
      MirrorStep(m);
      MirrorStep(n);
      MirrorUnique(m / 2, n / 2);
    }
  }

  function SpecialAt(a: nat): nat {
    if a < 6 then 4 else if a < 8 then 5 else if a < 12 then 6 else if a < 16 then 7 else if a < 24 then 8
    else if a < 32 then 9 else if a < 48 then 10 else if a < 64 then 11 else if a < 96 then 12 else 13
  }

  function LenRoleAt(rep: bool, o: nat): Role {
    if o == 0 then Choice(rep) else if o == 8 then Choice2(rep)
    else if o >= 256 then HighLen(rep)
    else if o % 16 < 8 then LowLen(rep, o / 16) else MidLen(rep, o / 16)
  }

  /** The role that owns a place of the packed table. */
  function RoleAt(a: nat): Role {
    if a < IS_REP0_LONG then Special(SpecialAt(a))
    else if a < REP_LEN_CODER then Rep0LongFlag((a - IS_REP0_LONG) % 16, (a - IS_REP0_LONG) / 16)
    else if a < LEN_CODER then LenRoleAt(true, a - REP_LEN_CODER)
    else if a < IS_MATCH then LenRoleAt(false, a - LEN_CODER)
    else if a < ALIGN then MatchFlag((a - IS_MATCH) % 16, (a - IS_MATCH) / 16)
    else if a < IS_REP then Align
    else if a < IS_REP_G0 then RepFlag(a - IS_REP)
    else if a < IS_REP_G1 then Rep0Flag(a - IS_REP_G0)
    else if a < IS_REP_G2 then Rep1Flag(a - IS_REP_G1)
    else if a < POS_SLOT then Rep2Flag(a - IS_REP_G2)
    else if a < LITERAL then DistSlot((a - POS_SLOT) / 64)
    else Literal((a - LITERAL) / LIT_SIZE, (a - LITERAL) % LIT_SIZE / 0x100)
  }

  lemma SmallPowers()
    ensures Pow2(0) == 1 && Pow2(1) == 2 && Pow2(2) == 4 && Pow2(3) == 8 && Pow2(4) == 16 && Pow2(5) == 32
  {
  }

  lemma MirrorInside(m: nat, k: nat)
    requires 1 <= m < Pow2(k)
    ensures 1 <= Mirror(m) < Pow2(k)
  {
    MirrorLevel(m);
    LevelBound(m, k);
    Pow2Mono(Level(m) + 1, k);
  }

  lemma SpecialAddress(slot: nat, m: nat)
    requires 4 <= slot < 14 && 1 <= m < Pow2(slot / 2 - 1)
    ensures SpecialAt(SlotBase(slot) + Mirror(m)) == slot && SlotBase(slot) + Mirror(m) < 128
  {
    hide Mirror, Pow2;
    MirrorInside(m, slot / 2 - 1);
    SmallPowers();
  }

  lemma AlignAddress(m: nat)
    requires 1 <= m < 16
    ensures 1 <= Mirror(m) < 16
  {
    hide Mirror, Pow2;
    SmallPowers();
    MirrorInside(m, 4);
  }

  lemma LenAddress(k: Key, size: nat)
    requires KeyOk(k, size) && (k.role.LowLen? || k.role.MidLen? || k.role.HighLen?)
    ensures LenStart(k.role.rep) < Address(k) < LenStart(k.role.rep) + 512
    ensures LenRoleAt(k.role.rep, Address(k) - LenStart(k.role.rep)) == k.role
  {
    hide Pow2, SlotBase, Mirror;
  }

  lemma StateAddress(r: Role)
    requires r.MatchFlag? || r.Rep0LongFlag?
    requires r.state < 12 && r.posState < 16
    ensures RoleAt(TreeBase(r)) == r && TreeBase(r) < LITERAL
  {
    hide Pow2, SlotBase, SpecialAt, LenRoleAt;
  }

  lemma LiteralAddress(k: Key, size: nat)
    requires KeyOk(k, size) && k.role.Literal?
    ensures RoleAt(Address(k)) == k.role && Address(k) < size
  {
    hide Pow2, SlotBase, SpecialAt, LenRoleAt, Mirror;
    var o := Address(k) - LITERAL;
    assert o == LIT_SIZE * k.role.index + (0x100 * k.role.matched + k.m);
  }

  /** Every key has a place within the table, in a part owned by its role. */
  lemma AddressOk(k: Key, size: nat)
    requires KeyOk(k, size) && size >= LITERAL
    ensures Address(k) < size && RoleAt(Address(k)) == k.role
  {
    hide Mirror, Pow2, SlotBase, SpecialAt;
    match k.role
    case Special(slot) => SpecialAddress(slot, k.m);
    case Align => AlignAddress(k.m);
    case LowLen(_, _) => LenAddress(k, size);
    case MidLen(_, _) => LenAddress(k, size);
    case HighLen(_) => LenAddress(k, size);
    case Literal(_, _) => LiteralAddress(k, size);
    case MatchFlag(_, _) => StateAddress(k.role);
    case Rep0LongFlag(_, _) => StateAddress(k.role);
    case _ =>
  }

  /** Different keys have different places. */
  lemma AddressUnique(a: Key, b: Key, size: nat)
    requires KeyOk(a, size) && KeyOk(b, size) && size >= LITERAL && Address(a) == Address(b)
    ensures a == b
  {
    hide Mirror, TreeBase, RoleAt;
    AddressOk(a, size);
    AddressOk(b, size);
    if Reversed(a.role) { MirrorUnique(a.m, b.m); }
  }

  ghost predicate KeyPlace(j: Key, probs: seq<nat>, t: Table) {
    j.m >= 1 && Address(j) < |probs| && probs[Address(j)] == Get(t, j)
  }

  /** The packed table holds the probability of every key. */
  ghost predicate Packs(probs: seq<nat>, t: Table) {
    && |probs| >= LITERAL
    && forall k: Key :: KeyOk(k, |probs|) ==> KeyPlace(k, probs, t)
  }

  /** Updating a key and its place keeps the two tables alike. */
  lemma PacksUpdate(probs: seq<nat>, t: Table, k: Key, p: nat)
    requires Packs(probs, t) && KeyOk(k, |probs|) && ProbOk(p)
    ensures Address(k) < |probs| && Packs(probs[Address(k) := p], t[k := p])
  {
    hide Address, KeyOk;
    KeyPositive(k, |probs|);
    AddressOk(k, |probs|);
    var packed, t': Table := probs[Address(k) := p], t[k := p];
    forall j: Key | KeyOk(j, |packed|) ensures KeyPlace(j, packed, t') {
      KeyPositive(j, |probs|);
      AddressOk(j, |probs|);
      if Address(j) == Address(k) { AddressUnique(j, k, |probs|); }
    }
  }

  lemma KeyPositive(k: Key, size: nat)
    requires KeyOk(k, size)
    ensures k.m >= 1
  {
  }

  /** A fresh table packs the table in which nothing has been used. */
  lemma PacksFresh(probs: seq<nat>)
    requires |probs| >= LITERAL && forall i :: 0 <= i < |probs| ==> probs[i] == PROB_INIT
    ensures Packs(probs, map[])
  {
    hide Address, KeyOk;
    forall j: Key | KeyOk(j, |probs|) ensures j.m >= 1 && Address(j) < |probs| {
      KeyPositive(j, |probs|);
      AddressOk(j, |probs|);
    }
  }

  // ---- The walk over the decision graph, part by part

  /** Coder and table of the reference, and the packed table of the walk. */
  ghost predicate InStep(x: Ctx, t: Table, probs: seq<nat>) {
    Fits(x, probs) && ProbsOk(probs) && Packs(probs, t)
  }

  /** One adaptive decision: normalising after a bit or before the next one is the same. */
  lemma BitRuns(x: Ctx, n: Node, c: Registers, t: Table, k: Key, probs: seq<nat>) returns (packed: seq<nat>)
    requires InStep(x, t, probs) && NodeOk(n) && Reads(n)
    requires KeyOk(k, |probs|) && Slot(x, n) == Address(k)
    ensures var g := DecodeBit(c, t, k);
            if g.Short? then Run(x, Place(n, c, probs)) == Starved
            else
              InStep(x, g.t, packed) && |packed| == |probs| &&
              Run(x, Place(n, c, probs)) == Run(x, Place(Next(x, n, g.value), g.c, packed))
  {
    hide Address, KeyOk, Slot, Follow, NodeOk, Steps, After;
    KeyPositive(k, |probs|);
    assert KeyPlace(k, probs, t);
    var p := probs[Address(k)];
    var b := BitOf(c, p);
    packed := probs[Address(k) := NewProb(p, b)];
    PacksUpdate(probs, t, k, NewProb(p, b));
    var w := Place(n, c, probs);
    assert Step(x, w) == Place(Next(x, n, b), After(c, p), packed);
    if !Dry(After(c, p)) { RunNormal(x, Step(x, w)); }
  }

  lemma LiteralSlot(x: Ctx, n: Node, index: nat)
    requires NodeOk(n) && n.LitBit? && x.lit == LITERAL + LIT_SIZE * index
    ensures Slot(x, n) == Address(Key(Literal(index, if n.same then 1 + n.mb / 128 else 0), n.sym))
  {
  }

  lemma LiteralNext(x: Ctx, n: Node, b: bool)
    requires NodeOk(n) && n.LitBit?
    ensures var s := 2 * n.sym + Bit(b);
            1 <= s < 0x200 &&
            Next(x, n, b) == if s < 0x100 then LitBit(s, n.mb * 2 % 256, n.same && Bit(b) == n.mb / 128) else Done(Lit(s - 0x100))
  {
  }

  lemma InStepFits(x: Ctx, t: Table, probs: seq<nat>)
    requires InStep(x, t, probs)
    ensures x.lit + LIT_SIZE <= |probs| && CtxOk(x) && |probs| >= LITERAL
  {
  }

  lemma LiteralRuns(x: Ctx, n: Node, c: Registers, t: Table, index: nat, probs: seq<nat>) returns (packed: seq<nat>)
    requires InStep(x, t, probs) && NodeOk(n) && n.LitBit?
    requires x.lit == LITERAL + LIT_SIZE * index
    ensures var g := DecodeLiteral(c, t, index, n.sym, n.mb, n.same);
            if g.Short? then Run(x, Place(n, c, probs)) == Starved
            else
              InStep(x, g.t, packed) && |packed| == |probs| &&
              Run(x, Place(n, c, probs)) == Run(x, Place(Done(Lit(g.value)), g.c, packed))
    decreases 0x100 - n.sym
  {
    hide Address, InStep, Slot, DecodeBit, Run, Steps, Follow;
    var k := Key(Literal(index, if n.same then 1 + n.mb / 128 else 0), n.sym);
    InStepFits(x, t, probs);
    LiteralSlot(x, n, index);
    packed := BitRuns(x, n, c, t, k, probs);
    var g := DecodeBit(c, t, k);
    if g.Got? {
      LiteralNext(x, n, g.value);
      if 2 * n.sym + Bit(g.value) < 0x100 {
        packed := LiteralRuns(x, Next(x, n, g.value), g.c, g.t, index, packed);
      } else {
        LiteralEnd(g.c, g.t, index, 2 * n.sym + Bit(g.value), n.mb * 2 % 256, n.same && Bit(g.value) == n.mb / 128);
      }
    }
  }

  lemma LiteralEnd(c: Registers, t: Table, index: nat, sym: nat, matchByte: Byte, matched: bool)
    requires 0x100 <= sym < 0x200
    ensures DecodeLiteral(c, t, index, sym, matchByte, matched) == Got(sym - 0x100, c, t)
  {
  }

  function LenRole(x: Ctx, k: Kind, band: Band): Role {
    match band
    case Near => LowLen(k.Rep?, x.posState)
    case Mid => MidLen(k.Rep?, x.posState)
    case Far => HighLen(k.Rep?)
  }

  function BandOffset(band: Band): nat {
    match band
    case Near => 0
    case Mid => 8
    case Far => 16
  }

  lemma LenSlot(x: Ctx, n: Node, size: nat)
    requires CtxOk(x) && NodeOk(n) && n.LenBit? && size >= LITERAL
    ensures KeyOk(Key(LenRole(x, n.kind, n.band), n.m), size)
    ensures Slot(x, n) == Address(Key(LenRole(x, n.kind, n.band), n.m))
  {
    hide Pow2, Mirror, SlotBase;
  }

  lemma LenNext(x: Ctx, n: Node, b: bool)
    requires NodeOk(n) && n.LenBit?
    ensures var m := 2 * n.m + Bit(b);
            Next(x, n, b) == if m < BandLimit(n.band) then LenBit(n.kind, n.band, m)
                             else AfterLen(n.kind, BandOffset(n.band) + (m - BandLimit(n.band)))
  {
    hide AfterLen;
  }

  lemma TreeEnd(c: Registers, t: Table, r: Role, m: nat, size: nat)
    requires 1 <= m && size <= m
    ensures BitTree(c, t, r, m, size) == Got(m - size, c, t)
  {
  }

  lemma LenTreeRuns(x: Ctx, n: Node, c: Registers, t: Table, probs: seq<nat>) returns (packed: seq<nat>)
    requires InStep(x, t, probs) && NodeOk(n) && n.LenBit?
    ensures var g := BitTree(c, t, LenRole(x, n.kind, n.band), n.m, BandLimit(n.band));
            if g.Short? then Run(x, Place(n, c, probs)) == Starved
            else
              InStep(x, g.t, packed) && |packed| == |probs| &&
              NodeOk(AfterLen(n.kind, BandOffset(n.band) + g.value)) &&
              Run(x, Place(n, c, probs)) == Run(x, Place(AfterLen(n.kind, BandOffset(n.band) + g.value), g.c, packed))
    decreases BandLimit(n.band) - n.m
  {
    hide Address, InStep, Slot, DecodeBit, Run, Steps, Follow, AfterLen, KeyOk;
    var r := LenRole(x, n.kind, n.band);
    InStepFits(x, t, probs);
    LenSlot(x, n, |probs|);
    packed := BitRuns(x, n, c, t, Key(r, n.m), probs);
    var g := DecodeBit(c, t, Key(r, n.m));
    if g.Got? {
      LenNext(x, n, g.value);
      if 2 * n.m + Bit(g.value) < BandLimit(n.band) {
        packed := LenTreeRuns(x, Next(x, n, g.value), g.c, g.t, packed);
      } else {
        TreeEnd(g.c, g.t, r, 2 * n.m + Bit(g.value), BandLimit(n.band));
      }
    }
  }

  lemma SlotSlot(x: Ctx, n: Node, size: nat)
    requires CtxOk(x) && NodeOk(n) && n.SlotBit? && size >= LITERAL
    ensures KeyOk(Key(DistSlot(LenState(n.len)), n.m), size)
    ensures Slot(x, n) == Address(Key(DistSlot(LenState(n.len)), n.m))
  {
    hide Pow2, Mirror, SlotBase;
  }

  lemma SlotNext(x: Ctx, n: Node, b: bool)
    requires NodeOk(n) && n.SlotBit?
    ensures var m := 2 * n.m + Bit(b);
            m < 128 && Next(x, n, b) == if m < 64 then SlotBit(n.len, m) else AfterSlot(n.len, m - 64)
  {
    hide AfterSlot;
  }

  lemma SlotTreeRuns(x: Ctx, n: Node, c: Registers, t: Table, probs: seq<nat>) returns (packed: seq<nat>)
    requires InStep(x, t, probs) && NodeOk(n) && n.SlotBit?
    ensures var g := BitTree(c, t, DistSlot(LenState(n.len)), n.m, 64);
            if g.Short? then Run(x, Place(n, c, probs)) == Starved
            else
              InStep(x, g.t, packed) && |packed| == |probs| &&
              g.value < 64 && NodeOk(AfterSlot(n.len, g.value)) &&
              Run(x, Place(n, c, probs)) == Run(x, Place(AfterSlot(n.len, g.value), g.c, packed))
    decreases 64 - n.m
  {
    hide Address, InStep, Slot, DecodeBit, Run, Steps, Follow, AfterSlot, KeyOk;
    var r := DistSlot(LenState(n.len));
    InStepFits(x, t, probs);
    SlotSlot(x, n, |probs|);
    packed := BitRuns(x, n, c, t, Key(r, n.m), probs);
    var g := DecodeBit(c, t, Key(r, n.m));
    if g.Got? {
      SlotNext(x, n, g.value);
      if 2 * n.m + Bit(g.value) < 64 {
        packed := SlotTreeRuns(x, Next(x, n, g.value), g.c, g.t, packed);
      } else {
        TreeEnd(g.c, g.t, r, 2 * n.m + Bit(g.value), 64);
      }
    }
  }

  /** Node `s` of the reverse tree of a role, as the walk numbers it. */
  ghost predicate AtMirrored(n: Node, r: Role, s: nat)
    requires n.RevBit?
  {
    && s >= 1 && n.i == Mirror(s) && n.m == Pow2(Level(s)) && s < TreeSize(r) && TreeSize(r) == Pow2(Level(s) + n.left)
    && if n.align then r == Align else r.Special? && 4 <= r.slot < 14 && n.dist == SlotBase(r.slot)
  }

  lemma RevSlot(x: Ctx, n: Node, r: Role, s: nat, size: nat)
    requires NodeOk(n) && n.RevBit? && AtMirrored(n, r, s) && size >= LITERAL
    ensures KeyOk(Key(r, s), size) && Slot(x, n) == Address(Key(r, s))
  {
    hide Pow2, Mirror, SlotBase, Level;
  }

  /** The distance once the reverse tree from node `i` on has given `v`. */
  function RevTotal(dist: nat, i: nat, m: nat, v: nat): nat
    requires m <= i
  {
    dist + (i - m) + m * v
  }

  lemma RevTotalStep(dist: nat, i: nat, m: nat, b: bool, v: nat)
    requires m <= i
    ensures RevTotal(dist, i, m, Bit(b) + 2 * v) == RevTotal(dist, i + m + Bit(b) * m, 2 * m, v)
  {
    assert m * (Bit(b) + 2 * v) == m * Bit(b) + 2 * m * v;
  }

  lemma RevOrder(n: Node)
    requires NodeOk(n) && n.RevBit?
    ensures 1 <= n.m <= n.i && n.left >= 1
  {
  }

  lemma RevNext(x: Ctx, n: Node, b: bool)
    requires NodeOk(n) && n.RevBit? && n.m <= n.i
    ensures Next(x, n, b) == if n.left > 1 then RevBit(n.len, n.dist, n.i + n.m + Bit(b) * n.m, 2 * n.m, n.left - 1, n.align)
                             else AfterRev(n.len, RevTotal(n.dist, n.i, n.m, Bit(b)), n.align)
  {
    hide AfterRev, NodeOk;
  }

  lemma Pow2Next(k: nat)
    ensures Pow2(k + 1) == 2 * Pow2(k)
  {
  }

  lemma MirrorNext(n: Node, r: Role, s: nat, b: bool)
    requires n.RevBit? && AtMirrored(n, r, s) && n.left > 1
    ensures AtMirrored(RevBit(n.len, n.dist, n.i + n.m + Bit(b) * n.m, 2 * n.m, n.left - 1, n.align), r, 2 * s + Bit(b))
  {
    hide TreeSize, Mirror, Level, Pow2;
    var s' := 2 * s + Bit(b);
    assert s' / 2 == s && s' % 2 == Bit(b);
    MirrorStep(s');
    Pow2Next(Level(s));
    LevelBound(s', Level(s) + n.left);
    LevelBound(s, Level(s) + 1);
    Pow2Mono(Level(s) + 2, Level(s) + n.left);
    Pow2Next(Level(s) + 1);
  }

  lemma ReverseEnd(c: Registers, t: Table, r: Role, m: nat)
    ensures ReverseTree(c, t, r, m, 0) == Got(0, c, t)
  {
  }

  lemma RevTreeRuns(x: Ctx, n: Node, r: Role, s: nat, c: Registers, t: Table, probs: seq<nat>) returns (packed: seq<nat>)
    requires InStep(x, t, probs) && NodeOk(n) && n.RevBit? && AtMirrored(n, r, s) && n.m <= n.i
    ensures var g := ReverseTree(c, t, r, s, n.left);
            if g.Short? then Run(x, Place(n, c, probs)) == Starved
            else
              InStep(x, g.t, packed) && |packed| == |probs| &&
              var last := AfterRev(n.len, RevTotal(n.dist, n.i, n.m, g.value), n.align);
              NodeOk(last) && Run(x, Place(n, c, probs)) == Run(x, Place(last, g.c, packed))
    decreases n.left
  {
    hide Address, InStep, Slot, DecodeBit, Run, Steps, Follow, AfterRev, KeyOk, AtMirrored, RevTotal, NodeOk;
    RevOrder(n);
    InStepFits(x, t, probs);
    RevSlot(x, n, r, s, |probs|);
    packed := BitRuns(x, n, c, t, Key(r, s), probs);
    var g := DecodeBit(c, t, Key(r, s));
    if g.Got? {
      var n' := Next(x, n, g.value);
      RevNext(x, n, g.value);
      if n.left > 1 {
        RevOrder(n');
        MirrorNext(n, r, s, g.value);
        packed := RevTreeRuns(x, n', r, 2 * s + Bit(g.value), g.c, g.t, packed);
        var rest := ReverseTree(g.c, g.t, r, 2 * s + Bit(g.value), n.left - 1);
        if rest.Got? { RevTotalStep(n.dist, n.i, n.m, g.value, rest.value); }
      } else {
        ReverseEnd(g.c, g.t, r, 2 * s + Bit(g.value));
      }
    }
  }

  function DirectTotal(dist: nat, left: nat, v: nat): nat {
    dist * Pow2(left) + v
  }

  lemma DirectTotalStep(dist: nat, b: bool, left: nat, v: nat)
    requires left >= 1
    ensures DirectTotal(2 * dist + Bit(b), left - 1, v) == DirectTotal(dist, left, Bit(b) * Pow2(left - 1) + v)
  {
    var w := Pow2(left - 1);
    assert Pow2(left) == 2 * w;
    assert (2 * dist + Bit(b)) * w == dist * (2 * w) + Bit(b) * w;
  }

  lemma DirectNext(x: Ctx, n: Node, b: bool)
    requires NodeOk(n) && n.DirectBit?
    ensures n.left >= 1 && Next(x, n, b) ==
            if n.left > 1 then DirectBit(n.len, 2 * n.dist + Bit(b), n.left - 1)
            else RevBit(n.len, 16 * DirectTotal(2 * n.dist + Bit(b), 0, 0), 1, 1, 4, true)
  {
  }

  /** One direct bit. */
  lemma DirectStepRuns(x: Ctx, n: Node, c: Registers, probs: seq<nat>)
    requires Fits(x, probs) && ProbsOk(probs) && NodeOk(n) && n.DirectBit?
    ensures Run(x, Place(n, c, probs)) ==
            if Dry(AfterDirect(c)) then Starved else Run(x, Place(Next(x, n, DirectOf(c)), Normal(AfterDirect(c)), probs))
  {
    hide Slot, Steps, Follow, NodeOk, AfterDirect, DirectOf;
    var w := Place(n, c, probs);
    assert Step(x, w) == Place(Next(x, n, DirectOf(c)), AfterDirect(c), probs);
    if !Dry(AfterDirect(c)) { RunNormal(x, Step(x, w)); }
  }

  lemma DirectRuns(x: Ctx, n: Node, c: Registers, t: Table, probs: seq<nat>)
    requires InStep(x, t, probs) && NodeOk(n) && n.DirectBit?
    ensures var g := DirectBits(c, t, n.left);
            if g.Short? then Run(x, Place(n, c, probs)) == Starved
            else
              g.t == t &&
              var last := RevBit(n.len, 16 * DirectTotal(n.dist, n.left, g.value), 1, 1, 4, true);
              NodeOk(last) && Run(x, Place(n, c, probs)) == Run(x, Place(last, g.c, probs))
    decreases n.left
  {
    hide InStep, Slot, Steps, Follow, Pow2, NodeOk, DirectTotal, AfterDirect, Run, DirectOf, Normal;
    assert Fits(x, probs) && ProbsOk(probs) by { InStepPlace(x, t, probs); }
    var b := DirectOf(c);
    var d := AfterDirect(c);
    DirectNext(x, n, b);
    DirectStepRuns(x, n, c, probs);
    if !Dry(d) {
      if n.left > 1 {
        DirectRuns(x, Next(x, n, b), Normal(d), t, probs);
        var rest := DirectBits(Normal(d), t, n.left - 1);
        if rest.Got? { DirectTotalStep(n.dist, b, n.left, rest.value); }
      } else {
        DirectEnd(Normal(d), t);
        DirectTotalStep(n.dist, b, 1, 0);
      }
    }
  }

  lemma DirectEnd(c: Registers, t: Table)
    ensures DirectBits(c, t, 0) == Got(0, c, t)
  {
  }

  lemma InStepPlace(x: Ctx, t: Table, probs: seq<nat>)
    requires InStep(x, t, probs)
    ensures Fits(x, probs) && ProbsOk(probs)
  {
  }

  lemma DoneRuns(x: Ctx, sym: Symbol, c: Registers, probs: seq<nat>)
    requires Fits(x, probs) && ProbsOk(probs) && SymbolOk(sym)
    ensures Run(x, Place(Done(sym), c, probs)) == Finished(sym, c, probs)
  {
  }

  /** What a length leads to in the graph: the distance slot, or a finished match. */
  lemma LengthRuns(x: Ctx, k: Kind, c: Registers, t: Table, probs: seq<nat>) returns (packed: seq<nat>)
    requires InStep(x, t, probs) && KindOk(k)
    ensures var g := DecodeLength(c, t, k.Rep?, x.posState);
            if g.Short? then Run(x, Place(LenChoice(k), c, probs)) == Starved
            else
              InStep(x, g.t, packed) && |packed| == |probs| && NodeOk(AfterLen(k, g.value)) &&
              Run(x, Place(LenChoice(k), c, probs)) == Run(x, Place(AfterLen(k, g.value), g.c, packed))
  {
    hide Address, InStep, DecodeBit, Run, Steps, AfterLen, KeyOk, BitTree, Slot;
    InStepFits(x, t, probs);
    FlagSlots(x, k, |probs|);
    packed := BitRuns(x, LenChoice(k), c, t, Key(Choice(k.Rep?), 1), probs);
    var g := DecodeBit(c, t, Key(Choice(k.Rep?), 1));
    if g.Got? {
      if !g.value {
        packed := LenTreeRuns(x, LenBit(k, Near, 1), g.c, g.t, packed);
      } else {
        packed := BitRuns(x, LenChoice2(k), g.c, g.t, Key(Choice2(k.Rep?), 1), packed);
        var h := DecodeBit(g.c, g.t, Key(Choice2(k.Rep?), 1));
        if h.Got? {
          packed := LenTreeRuns(x, LenBit(k, if h.value then Far else Mid, 1), h.c, h.t, packed);
        }
      }
    }
  }

  /** The flags of the graph stand where their keys say. */
  lemma FlagSlots(x: Ctx, k: Kind, size: nat)
    requires CtxOk(x) && KindOk(k) && size >= LITERAL
    ensures KeyOk(Key(Choice(k.Rep?), 1), size) && Slot(x, LenChoice(k)) == Address(Key(Choice(k.Rep?), 1))
    ensures KeyOk(Key(Choice2(k.Rep?), 1), size) && Slot(x, LenChoice2(k)) == Address(Key(Choice2(k.Rep?), 1))
  {
  }

  lemma StateSlots(x: Ctx, size: nat)
    requires CtxOk(x) && size >= LITERAL
    ensures KeyOk(Key(MatchFlag(x.state, x.posState), 1), size) && Slot(x, IsMatch) == Address(Key(MatchFlag(x.state, x.posState), 1))
    ensures KeyOk(Key(RepFlag(x.state), 1), size) && Slot(x, IsRep) == Address(Key(RepFlag(x.state), 1))
    ensures KeyOk(Key(Rep0Flag(x.state), 1), size) && Slot(x, IsRepG0) == Address(Key(Rep0Flag(x.state), 1))
    ensures KeyOk(Key(Rep0LongFlag(x.state, x.posState), 1), size)
    ensures Slot(x, IsRep0Long) == Address(Key(Rep0LongFlag(x.state, x.posState), 1))
    ensures KeyOk(Key(Rep1Flag(x.state), 1), size) && Slot(x, IsRepG1) == Address(Key(Rep1Flag(x.state), 1))
    ensures KeyOk(Key(Rep2Flag(x.state), 1), size) && Slot(x, IsRepG2) == Address(Key(Rep2Flag(x.state), 1))
  {
  }

  /** The root of a reverse tree. */
  lemma SpecialRoot(len: nat, slot: nat)
    requires 2 <= len <= 273 && 4 <= slot < 14
    ensures AfterSlot(len, slot) == RevBit(len, SlotBase(slot), 1, 1, slot / 2 - 1, false)
    ensures AtMirrored(AfterSlot(len, slot), Special(slot), 1)
    ensures NodeOk(AfterSlot(len, slot))
  {
    AfterSlotOk(len, slot);
    assert Level(1) == 0 && Mirror(1) == 1;
    hide Level, Mirror;
    SmallPowers();
  }

  lemma AlignRoot(len: nat, dist: nat)
    ensures AtMirrored(RevBit(len, dist, 1, 1, 4, true), Align, 1)
  {
    assert Level(1) == 0 && Mirror(1) == 1;
    SmallPowers();
  }

  lemma FarTotal(slot: nat, high: nat, low: nat)
    requires 14 <= slot < 64
    ensures 16 * DirectTotal(2 + slot % 2, slot / 2 - 5, high) + low == SlotBase(slot) + (16 * high + low)
  {
    hide Pow2;
    SmallPowers();
    Pow2Sum(slot / 2 - 5, 4);
    assert (2 + slot % 2) * (Pow2(slot / 2 - 5) * 16) == 16 * ((2 + slot % 2) * Pow2(slot / 2 - 5));
  }

  /** The part of a distance after its slot. */
  lemma SlotRuns(x: Ctx, len: nat, slot: nat, c: Registers, t: Table, probs: seq<nat>) returns (packed: seq<nat>)
    requires InStep(x, t, probs) && 2 <= len <= 273 && 4 <= slot < 64
    ensures NodeOk(AfterSlot(len, slot))
    ensures var g := if slot < 14 then ReverseTree(c, t, Special(slot), 1, slot / 2 - 1) else DecodeFar(c, t, slot / 2 - 5);
            if g.Short? then Run(x, Place(AfterSlot(len, slot), c, probs)) == Starved
            else
              InStep(x, g.t, packed) && |packed| == |probs| &&
              var last := AfterRev(len, SlotBase(slot) + g.value, slot >= 14);
              NodeOk(last) && Run(x, Place(AfterSlot(len, slot), c, probs)) == Run(x, Place(last, g.c, packed))
  {
    hide InStep, Run, Steps, AfterRev, NodeOk, ReverseTree, DirectBits, SlotBase, AtMirrored, DirectTotal, Pow2;
    packed := probs;
    AfterSlotOk(len, slot);
    var n := AfterSlot(len, slot);
    if slot < 14 {
      SpecialRoot(len, slot);
      packed := RevTreeRuns(x, n, Special(slot), 1, c, t, probs);
    } else {
      DirectRuns(x, n, c, t, probs);
      var g := DirectBits(c, t, slot / 2 - 5);
      if g.Got? {
        var dist := 16 * DirectTotal(2 + slot % 2, slot / 2 - 5, g.value);
        AlignRoot(len, dist);
        packed := RevTreeRuns(x, RevBit(len, dist, 1, 1, 4, true), Align, 1, g.c, g.t, probs);
        var h := ReverseTree(g.c, g.t, Align, 1, 4);
        if h.Got? { FarTotal(slot, g.value, h.value); }
      }
    }
  }

  /** The symbol a new match of a given length and distance is. */
  function MatchSymbol(len: nat, dist: nat): Symbol {
    if dist == U32 - 1 then EndMark else Copy(NewMatch, len, dist)
  }

  lemma DistanceRuns(x: Ctx, len: nat, c: Registers, t: Table, probs: seq<nat>) returns (packed: seq<nat>)
    requires InStep(x, t, probs) && 2 <= len <= 273
    ensures var g := DecodeDistance(c, t, len - 2);
            if g.Short? then Run(x, Place(SlotBit(len, 1), c, probs)) == Starved
            else
              InStep(x, g.t, packed) && |packed| == |probs| && NodeOk(Done(MatchSymbol(len, g.value))) &&
              Run(x, Place(SlotBit(len, 1), c, probs)) == Run(x, Place(Done(MatchSymbol(len, g.value)), g.c, packed))
  {
    hide InStep, Run, Steps, NodeOk, ReverseTree, DecodeFar, BitTree, AtMirrored, Pow2, AfterSlot, SlotBase, AfterRev;
    assert NodeOk(SlotBit(len, 1)) by { SlotRoot(len); }
    packed := SlotTreeRuns(x, SlotBit(len, 1), c, t, probs);
    var g := BitTree(c, t, DistSlot(LenState(len)), 1, 64);
    if g.Got? {
      if g.value < 4 {
        NearSlot(len, g.value);
      } else {
        packed := SlotRuns(x, len, g.value, g.c, g.t, packed);
        var low := if g.value < 14 then ReverseTree(g.c, g.t, Special(g.value), 1, g.value / 2 - 1)
                   else DecodeFar(g.c, g.t, g.value / 2 - 5);
        if low.Got? { FarSlot(len, SlotBase(g.value) + low.value, g.value >= 14); }
      }
    }
  }

  lemma SlotRoot(len: nat)
    requires 2 <= len <= 273
    ensures NodeOk(SlotBit(len, 1))
  {
  }

  lemma NearSlot(len: nat, slot: nat)
    requires slot < 4
    ensures AfterSlot(len, slot) == Done(MatchSymbol(len, slot)) && SlotBase(slot) == slot
  {
  }

  /** Only distances with align bits can be the end mark, so short ones need no test for it. */
  lemma FarSlot(len: nat, dist: nat, align: bool)
    requires NodeOk(AfterRev(len, dist, align))
    ensures AfterRev(len, dist, align) == Done(MatchSymbol(len, dist))
  {
  }

  lemma RepMatchRuns(x: Ctx, which: nat, c: Registers, t: Table, probs: seq<nat>) returns (packed: seq<nat>)
    requires InStep(x, t, probs) && which < 4
    ensures var g := DecodeRepMatch(c, t, x.posState, which);
            if g.Short? then Run(x, Place(LenChoice(Rep(which)), c, probs)) == Starved
            else
              InStep(x, g.t, packed) && |packed| == |probs| &&
              Run(x, Place(LenChoice(Rep(which)), c, probs)) == Finished(g.value, g.c, packed)
  {
    hide InStep, Run, Steps, DecodeLength;
    packed := LengthRuns(x, Rep(which), c, t, probs);
    var g := DecodeLength(c, t, true, x.posState);
    if g.Got? {
      InStepPlace(x, g.t, packed);
      DoneRuns(x, Copy(Rep(which), g.value + 2, 0), g.c, packed);
    }
  }

  lemma MatchRuns(x: Ctx, c: Registers, t: Table, probs: seq<nat>) returns (packed: seq<nat>)
    requires InStep(x, t, probs)
    ensures var g := DecodeMatch(c, t, x.posState);
            if g.Short? then Run(x, Place(LenChoice(NewMatch), c, probs)) == Starved
            else
              InStep(x, g.t, packed) && |packed| == |probs| &&
              Run(x, Place(LenChoice(NewMatch), c, probs)) == Finished(g.value, g.c, packed)
  {
    hide InStep, Run, Steps, DecodeLength, DecodeDistance;
    packed := LengthRuns(x, NewMatch, c, t, probs);
    var g := DecodeLength(c, t, false, x.posState);
    if g.Got? {
      packed := DistanceRuns(x, g.value + 2, g.c, g.t, packed);
      var h := DecodeDistance(g.c, g.t, g.value);
      if h.Got? {
        InStepPlace(x, h.t, packed);
        DoneRuns(x, MatchSymbol(g.value + 2, h.value), h.c, packed);
      }
    }
  }

  lemma RepRuns(x: Ctx, c: Registers, t: Table, probs: seq<nat>) returns (packed: seq<nat>)
    requires InStep(x, t, probs)
    ensures var g := DecodeRep(c, t, x.state, x.posState);
            if g.Short? then Run(x, Place(IsRepG0, c, probs)) == Starved
            else
              InStep(x, g.t, packed) && |packed| == |probs| && Run(x, Place(IsRepG0, c, probs)) == Finished(g.value, g.c, packed)
  {
    hide InStep, Run, Steps, DecodeRepMatch, DecodeBit, KeyOk, Address, Slot;
    InStepFits(x, t, probs);
    StateSlots(x, |probs|);
    packed := BitRuns(x, IsRepG0, c, t, Key(Rep0Flag(x.state), 1), probs);
    var g := DecodeBit(c, t, Key(Rep0Flag(x.state), 1));
    if g.Got? && !g.value {
      packed := BitRuns(x, IsRep0Long, g.c, g.t, Key(Rep0LongFlag(x.state, x.posState), 1), packed);
      var h := DecodeBit(g.c, g.t, Key(Rep0LongFlag(x.state, x.posState), 1));
      if h.Got? {
        if h.value {
          packed := RepMatchRuns(x, 0, h.c, h.t, packed);
        } else {
          InStepPlace(x, h.t, packed);
          DoneRuns(x, ShortRep, h.c, packed);
        }
      }
    } else if g.Got? {
      packed := BitRuns(x, IsRepG1, g.c, g.t, Key(Rep1Flag(x.state), 1), packed);
      var h := DecodeBit(g.c, g.t, Key(Rep1Flag(x.state), 1));
      if h.Got? && !h.value {
        packed := RepMatchRuns(x, 1, h.c, h.t, packed);
      } else if h.Got? {
        packed := BitRuns(x, IsRepG2, h.c, h.t, Key(Rep2Flag(x.state), 1), packed);
        var i := DecodeBit(h.c, h.t, Key(Rep2Flag(x.state), 1));
        if i.Got? { packed := RepMatchRuns(x, if i.value then 3 else 2, i.c, i.t, packed); }
      }
    }
  }

  /**
   * The reference and the walk decode the same symbol with the same bytes, and leave
   * tables that hold the same probabilities; the one runs out of input when the other does.
   */
  lemma SymbolRuns(x: Ctx, index: nat, c: Registers, t: Table, probs: seq<nat>) returns (packed: seq<nat>)
    requires InStep(x, t, probs) && x.lit == LITERAL + LIT_SIZE * index
    ensures var g := DecodeSymbol(c, t, x.state, x.posState, index, x.matchByte);
            if g.Short? then Run(x, Place(IsMatch, c, probs)) == Starved
            else
              InStep(x, g.t, packed) && |packed| == |probs| && Run(x, Place(IsMatch, c, probs)) == Finished(g.value, g.c, packed)
  {
    hide InStep, Run, Steps, DecodeRep, DecodeMatch, DecodeLiteral, DecodeBit, KeyOk, Address, Slot;
    InStepFits(x, t, probs);
    StateSlots(x, |probs|);
    packed := BitRuns(x, IsMatch, c, t, Key(MatchFlag(x.state, x.posState), 1), probs);
    var g := DecodeBit(c, t, Key(MatchFlag(x.state, x.posState), 1));
    if g.Got? && !g.value {
      var n := LitBit(1, x.matchByte, x.state >= 7);
      packed := LiteralRuns(x, n, g.c, g.t, index, packed);
      var h := DecodeLiteral(g.c, g.t, index, 1, x.matchByte, x.state >= 7);
      if h.Got? {
        InStepPlace(x, h.t, packed);
        DoneRuns(x, Lit(h.value), h.c, packed);
      }
    } else if g.Got? {
      packed := BitRuns(x, IsRep, g.c, g.t, Key(RepFlag(x.state), 1), packed);
      var h := DecodeBit(g.c, g.t, Key(RepFlag(x.state), 1));
      if h.Got? && h.value {
        packed := RepRuns(x, h.c, h.t, packed);
      } else if h.Got? {
        packed := MatchRuns(x, h.c, h.t, packed);
      }
    }
  }

  // ---- The reference decoder of a stream

  /** `owed` counts the bytes of a last match that found no room. */
  datatype Unpacker = Unpacker(c: Registers, t: Table, state: nat, reps: Reps, out: seq<Byte>, owed: nat)

  /** Why unpacking ended: an error, no room, no input, or the end mark. */
  datatype Unpacked = Corrupt(status: Status) | Full(s: Unpacker) | Hungry(s: Unpacker) | Marked(s: Unpacker)

  function LiteralIndex(p: Prop, out: seq<Byte>): nat
    requires p.lc <= 8
  {
    if out == [] then 0 else LitCoder(p, out)
  }

  function BackByte(out: seq<Byte>, dist: nat): Byte {
    if 1 <= dist <= |out| then out[|out| - dist] else 0
  }

  /** Copy a match as far as there is room; nothing if it would start before the output. */
  function Match(s: Unpacker, len: nat, limit: nat): Option<Unpacker>
    requires |s.out| <= limit
  {
    if 1 <= s.reps.r0 <= |s.out| then
      var n := Min(len, limit - |s.out|);
      Some(s.(out := CopyBack(s.out, s.reps.r0, n), owed := len - n))
    else None
  }

  /** Write what a symbol other than the end mark stands for. */
  function Write(p: Prop, s: Unpacker, sym: Symbol, limit: nat): Option<Unpacker>
    requires |s.out| < limit && !sym.EndMark?
  {
    match sym
    case Lit(b) => Some(s.(out := s.out + [b], state := LitState(s.state)))
    case ShortRep => Match(s.(state := if s.state < 7 then 9 else 11), 1, limit)
    case Copy(Rep(which), len, _) =>
      Match(s.(reps := Recall(s.reps, which), state := if s.state < 7 then 8 else 11), len, limit)
    case Copy(NewMatch, len, dist) =>
      if dist >= p.dicSize then None
      else Match(s.(reps := Reps(dist + 1, s.reps.r0, s.reps.r1, s.reps.r2), state := if s.state < 7 then 7 else 10), len, limit)
  }

  /** The next symbol, in the context of the output so far. */
  function NextOf(p: Prop, s: Unpacker): Got<Symbol>
    requires p.lc <= 8
  {
    DecodeSymbol(s.c, s.t, s.state, |s.out| % Pow2(p.pb), LiteralIndex(p, s.out), BackByte(s.out, s.reps.r0))
  }

  function Mark(s: Unpacker, c: Registers, t: Table): Unpacked {
    if c.code == 0 then Marked(s.(c := c, t := t)) else Corrupt(NotSpecified)
  }

  /** Without room: in the mode that insists on the end, only an end mark may follow. */
  function NoRoom(p: Prop, s: Unpacker, mode: Mode): Unpacked
    requires p.lc <= 8
  {
    if (s.owed == 0 && s.c.code == 0) || mode == FinishAny then Full(s)
    else if s.owed > 0 then Corrupt(NotFinished)
    else
      match NextOf(p, s)
      case Short => Hungry(s)
      case Got(EndMark, c, t) => Mark(s, c, t)
      case Got(sym, _, _) => Corrupt(if ClassOf(sym) == ClassMatch then NotSpecified else NotFinished)
  }

  /** Decode symbols and write them until there is no room, no input, an end mark or an error. */
  function Unpack(p: Prop, s: Unpacker, limit: nat, mode: Mode): Unpacked
    requires p.lc <= 8
    decreases limit - |s.out|
  {
    if |s.out| >= limit then NoRoom(p, s, mode)
    else
      match NextOf(p, s)
      case Short => Hungry(s)
      case Got(EndMark, c, t) => Mark(s, c, t)
      case Got(sym, c, t) =>
        match Write(p, s.(c := c, t := t), sym, limit)
        case None => Corrupt(NotSpecified)
        case Some(s') => if |s'.out| > |s.out| then Unpack(p, s', limit, mode) else Corrupt(NotSpecified)
  }

  function NewUnpacker(code: nat, inp: seq<Byte>): Unpacker
    requires code < U32
  {
    Unpacker(Coder(U32 - 1, code, inp), map[], 0, Reps(1, 1, 1, 1), [], 0)
  }

  /** The same output, coder, recent distances, probabilities and bytes owed. */
  ghost predicate Shows(k: Core, rest: seq<Byte>, s: Unpacker) {
    && k.out == s.out && k.state == s.state && k.reps == s.reps && s.owed == (if k.rem == SPEC_LEN then 0 else k.rem)
    && Coder(k.range, k.code, rest) == s.c && Packs(k.probs, s.t)
  }

  /** What the stream decoder answers where the reference ends. */
  ghost predicate SameEnd(a: Answer, u: Unpacked) {
    match u
    case Corrupt(status) => a == Failed(status)
    case Full(s) =>
      a.Paused? && Shows(a.core, a.rest, s) &&
      a.status == if s.owed == 0 && s.c.code == 0 then MaybeFinishedWithoutMark else NotFinished
    case Hungry(s) => a.Paused? && a.status == NeedsMoreInput && Shows(a.core, a.rest, s)
    case Marked(s) => a.Paused? && a.status == FinishedWithMark && Shows(a.core, a.rest, s)
  }

  /** One symbol of the stream decoder is one symbol of the reference. */
  lemma NextIsFormat(p: Prop, k: Core, s: Unpacker) returns (packed: seq<nat>)
    requires CoreOk(p, k) && Shows(k, s.c.inp, s)
    ensures p.lc <= 8
    ensures var g := NextOf(p, s);
            if g.Short? then NextSymbol(p, k, s.c.inp) == Starved
            else NextSymbol(p, k, s.c.inp) == Finished(g.value, g.c, packed) && Packs(packed, g.t)
  {
    hide Run, DecodeSymbol, Pow2, Packs;
    ContextOk(p, k);
    packed := SymbolRuns(ContextOf(p, k), LiteralIndex(p, s.out), s.c, s.t, k.probs);
  }

  /** A match that is owed and flushed is a match written. */
  lemma FlushIsMatch(k: Core, s: Unpacker, len: nat, limit: nat)
    requires k.rem == len && 1 <= len < SPEC_LEN && |k.out| < limit && Shows(k, s.c.inp, s.(owed := len))
    ensures var w := Match(s, len, limit);
            if w.None? then !(1 <= k.reps.r0 <= |k.out|)
            else Shows(Flush(k, limit), s.c.inp, w.value) && |w.value.out| > |s.out|
  {
    hide Packs;
  }

  /** Applying a symbol and flushing is writing it. */
  lemma ApplyIsWrite(p: Prop, k: Core, r: Outcome, s: Unpacker, limit: nat)
    requires CoreOk(p, k) && k.rem == 0 && |k.out| < limit
    requires r.Finished? && SymbolOk(r.symbol) && !r.symbol.EndMark?
    requires k.out == s.out && k.state == s.state && k.reps == s.reps && r.coder == s.c && Packs(r.probs, s.t) && s.owed == 0
    ensures var w := Write(p, s, r.symbol, limit);
            if w.None? then Apply(p, k, r).Rejected?
            else Apply(p, k, r).Accepted? && Shows(Flush(Apply(p, k, r).core, limit), s.c.inp, w.value) && |w.value.out| > |s.out|
  {
    hide Packs, Pow2;
    if r.symbol.Copy? {
      hide CopyBack, Flush, Match;
      CopyIsWrite(p, k, r, s, limit);
    } else if r.symbol.ShortRep? {
      if 1 <= s.reps.r0 <= |s.out| {
        assert CopyBack(s.out, s.reps.r0, 1) == s.out + [s.out[|s.out| - s.reps.r0]];
      }
    }
  }

  lemma CopyIsWrite(p: Prop, k: Core, r: Outcome, s: Unpacker, limit: nat)
    requires CoreOk(p, k) && k.rem == 0 && |k.out| < limit
    requires r.Finished? && SymbolOk(r.symbol) && r.symbol.Copy?
    requires k.out == s.out && k.state == s.state && k.reps == s.reps && r.coder == s.c && Packs(r.probs, s.t) && s.owed == 0
    ensures var w := Write(p, s, r.symbol, limit);
            if w.None? then Apply(p, k, r).Rejected?
            else Apply(p, k, r).Accepted? && Shows(Flush(Apply(p, k, r).core, limit), s.c.inp, w.value) && |w.value.out| > |s.out|
  {
    hide Packs, Pow2, CopyBack, Flush, Match;
    var a := Apply(p, k, r);
    if a.Accepted? {
      var s1 := s.(reps := a.core.reps, state := a.core.state);
      FlushIsMatch(a.core, s1, r.symbol.len, limit);
      RepsReach(p, k, r);
    } else {
      MatchReaches(s.out, r.symbol.len, limit);
    }
  }

  /** An accepted match starts within the output. */
  lemma RepsReach(p: Prop, k: Core, r: Outcome)
    requires CoreOk(p, k) && r.Finished? && SymbolOk(r.symbol) && r.symbol.Copy? && Apply(p, k, r).Accepted?
    ensures 1 <= Apply(p, k, r).core.reps.r0 <= |k.out|
  {
    hide Pow2;
  }

  lemma MatchReaches(out: seq<Byte>, len: nat, limit: nat)
    requires |out| < limit
    ensures forall u: Unpacker :: u.out == out && (out == [] || u.reps.r0 > |out|) ==> Match(u, len, limit) == None
  {
  }

  lemma StateReady(p: Prop, k: Core)
    requires CoreOk(p, k)
    ensures p.lc <= 8 && p.pb <= 4 && TOP <= k.range < U32 && k.code < U32
  {
  }

  /** A turn below the limit: the symbol, then what follows from the state it leads to once flushed. */
  lemma TurnBelow(p: Prop, k: Core, inp: seq<Byte>, limit: nat, mode: Mode)
    requires CoreOk(p, k) && k.rem == 0 && |k.out| < limit
    ensures var r := NextSymbol(p, k, inp);
            var d := Decode(p, k, inp, limit, mode);
            if r.Starved? then d == Paused(NeedsMoreInput, k, inp)
            else if Apply(p, k, r).Rejected? then d == Failed(NotSpecified)
            else
              var k1 := Apply(p, k, r).core;
              CoreOk(p, k1) && |k1.out| <= limit &&
              CoreOk(p, Flush(k1, limit)) && |Flush(k1, limit).out| <= limit &&
              (Owes(Flush(k1, limit)) ==> |Flush(k1, limit).out| == limit) &&
              d == Decode(p, Flush(k1, limit), r.coder.inp, limit, mode)
  {
    hide NextSymbol, CoreOk, Pow2, Apply;
    assert Flush(k, limit) == k;
    var r := NextSymbol(p, k, inp);
    if r.Finished? && Apply(p, k, r).Accepted? {
      ApplyOk(p, k, inp);
      var k1 := Apply(p, k, r).core;
      assert TakeTurn(p, k, inp, limit, mode) == Go(k1, r.coder.inp);
      FlushOk(p, k1, limit);
      FlushSame(p, k1, r.coder.inp, limit, mode);
    }
  }

  lemma MarkEnds(p: Prop, k: Core, inp: seq<Byte>, limit: nat, mode: Mode)
    requires CoreOk(p, k) && k.rem == SPEC_LEN && |k.out| <= limit
    ensures Flush(k, limit) == k
    ensures Decode(p, k, inp, limit, mode) == if k.code != 0 then Failed(NotSpecified) else Paused(FinishedWithMark, k, inp)
  {
  }

  /** Where there is no room the stream decoder looks for the end as the reference does. */
  lemma LimitEnds(p: Prop, k: Core, s: Unpacker, limit: nat, mode: Mode)
    requires CoreOk(p, k) && k.rem != SPEC_LEN && |k.out| == limit && Shows(k, s.c.inp, s)
    ensures p.lc <= 8 && SameEnd(Decode(p, k, s.c.inp, limit, mode), NoRoom(p, s, mode))
  {
    hide NextSymbol, CoreOk, Packs, NextOf;
    var packed := NextIsFormat(p, k, s);
    assert Flush(k, limit) == k;
    var r := NextSymbol(p, k, s.c.inp);
    if k.rem == 0 && k.code != 0 && mode == FinishEnd && r.Finished? && r.symbol.EndMark? {
      MarkApplies(p, k, r);
      var k1 := k.(probs := r.probs, range := r.coder.range, code := r.coder.code, rem := SPEC_LEN);
      assert TakeTurn(p, k, s.c.inp, limit, mode) == Go(k1, r.coder.inp);
      TurnOk(p, k, s.c.inp, limit, mode);
      MarkEnds(p, k1, r.coder.inp, limit, mode);
    }
  }

  /**
   * The stream decoder is the reference decoder: same bytes written, same bytes read, same
   * probabilities, and the same reason to stop, for any input, valid or not, any limit and mode.
   */
  lemma {:induction false} DecodeIsUnpack(p: Prop, k: Core, s: Unpacker, limit: nat, mode: Mode)
    requires CoreOk(p, k) && k.rem != SPEC_LEN && |k.out| <= limit && Shows(k, s.c.inp, s)
    requires k.rem != 0 ==> |k.out| == limit
    ensures p.lc <= 8 && SameEnd(Decode(p, k, s.c.inp, limit, mode), Unpack(p, s, limit, mode))
    decreases limit - |k.out|
  {
    hide CoreOk, Pow2, Decode, NextSymbol, NextOf, NoRoom, Packs, Flush, Apply, Write;
    StateReady(p, k);
    if |k.out| == limit {
      LimitEnds(p, k, s, limit, mode);
    } else {
      var packed := NextIsFormat(p, k, s);
      TurnBelow(p, k, s.c.inp, limit, mode);
      var r := NextSymbol(p, k, s.c.inp);
      if r.Finished? {
        var g := NextOf(p, s);
        var s1 := s.(c := g.c, t := g.t);
        if r.symbol.EndMark? {
          MarkApplies(p, k, r);
          MarkEnds(p, Apply(p, k, r).core, r.coder.inp, limit, mode);
        } else {
          ApplyIsWrite(p, k, r, s1, limit);
          var w := Write(p, s1, r.symbol, limit);
          if w.Some? {
            var k1 := Flush(Apply(p, k, r).core, limit);
            NoMarkLeft(p, k, r, limit);
            DecodeIsUnpack(p, k1, w.value, limit, mode);
          }
        }
      }
    }
  }

  lemma MarkApplies(p: Prop, k: Core, r: Outcome)
    requires r.Finished? && r.symbol.EndMark?
    ensures Apply(p, k, r) == Accepted(k.(probs := r.probs, range := r.coder.range, code := r.coder.code, rem := SPEC_LEN))
  {
  }

  lemma NoMarkLeft(p: Prop, k: Core, r: Outcome, limit: nat)
    requires k.rem == 0 && r.Finished? && SymbolOk(r.symbol) && !r.symbol.EndMark? && Apply(p, k, r).Accepted?
    ensures Flush(Apply(p, k, r).core, limit).rem < SPEC_LEN
  {
  }

  /**
   * From the first byte on: one call on a whole stream ends where the reference decoder of
   * the format ends. Together with `ChunkIndependence` the same holds for any cutting of the input.
   */
  lemma FeedIsUnpack(p: Prop, src: seq<Byte>, limit: nat, mode: Mode)
    requires PropOk(p) && |src| >= HEADER && src[0] == 0
    ensures var reply := Feed(p, Waiting([]), src, limit, mode);
            var u := Unpack(p, NewUnpacker(CodeOf(src), src[HEADER..]), limit, mode);
            if reply.Refused? then u == Corrupt(reply.status)
            else reply.next.Running? && SameEnd(Paused(reply.status, reply.next.core, reply.next.held), u)
  {
    hide Decode, Unpack, Packs, CoreOk, Pow2;
    var k := FreshCore(p, CodeOf(src));
    var s := NewUnpacker(CodeOf(src), src[HEADER..]);
    assert [] + src == src;
    PacksFresh(k.probs);
    DecodeIsUnpack(p, k, s, limit, mode);
  }
}
