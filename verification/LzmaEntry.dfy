/** The one-call entry point against the reference decoder of the format. */
module LzmaEntry {
  import opened LzmaBits
  import opened LzmaStream
  import LzmaCoding
  import LzmaDec
  import LzmaFormat

  /**
   * What LzmaDecode delivers is what the reference decoder unpacks from the stream after its
   * five-byte header: the same bytes, the same use of the input, the same status, and a data
   * error exactly where the reference finds an error.
   */
  lemma OneCallIsFormat(
    p: Prop, dest: array<Byte>, src: seq<Byte>, mode: Mode, res: LzmaDec.SRes, destLen: nat, srcLen: nat, status: Status)
    requires PropOk(p) && |src| >= HEADER
    requires LzmaDec.OneCall(p, dest, src, mode, res, destLen, srcLen, status)
    ensures var u := LzmaFormat.Unpack(p, LzmaFormat.NewUnpacker(CodeOf(src), src[HEADER..]), dest.Length, mode);
            (res == LzmaDec.SzErrorData <==> src[0] != 0 || u.Corrupt?) && (src[0] == 0 && u.Corrupt? ==> status == u.status)
    ensures var u := LzmaFormat.Unpack(p, LzmaFormat.NewUnpacker(CodeOf(src), src[HEADER..]), dest.Length, mode);
            src[0] == 0 && !u.Corrupt? ==>
              && destLen <= dest.Length && dest[..destLen] == u.s.out
              && res == (if u.Hungry? then LzmaDec.SzErrorInputEof else LzmaDec.SzOk)
              && srcLen == (if u.Hungry? then |src| else |src| - |u.s.c.inp|)
              && (u.Hungry? ==> status == NeedsMoreInput)
              && (u.Marked? ==> status == FinishedWithMark)
              && (u.Full? ==> status == if u.s.owed == 0 && u.s.c.code == 0 then MaybeFinishedWithoutMark else NotFinished)
  {
    hide Decode, LzmaFormat.Unpack, LzmaFormat.Packs, CoreOk, Pow2, FreshCore;
    if src[0] == 0 {
      LzmaFormat.FeedIsUnpack(p, src, dest.Length, mode);
    } else {
      assert [] + src == src;
    }
  }

  lemma FourBytes(a: Byte, b: Byte, c: Byte, d: Byte)
    ensures LzmaCoding.Number([a, b, c, d]) == (a as int) * 0x100_0000 + (b as int) * 0x1_0000 + (c as int) * 0x100 + d
  {
    assert [d][1..] == [] && LzmaCoding.Number([d]) == d as int;
    assert [c, d][1..] == [d] && LzmaCoding.Shift(1) == 0x100;
    assert LzmaCoding.Number([c, d]) == (c as int) * 0x100 + d;
    assert [b, c, d][1..] == [c, d] && LzmaCoding.Shift(2) == 0x1_0000;
    assert LzmaCoding.Number([b, c, d]) == (b as int) * 0x1_0000 + (c as int) * 0x100 + d;
    assert [a, b, c, d][1..] == [b, c, d] && LzmaCoding.Shift(3) == 0x100_0000;
  }

  /** The header gives the first code with its most significant byte first. */
  lemma HeaderBigEndian(h: seq<Byte>)
    requires |h| >= HEADER
    ensures CodeOf(h) == LzmaCoding.Number(h[1..5])
  {
    assert h[1..5] == [h[1], h[2], h[3], h[4]];
    FourBytes(h[1], h[2], h[3], h[4]);
  }

  /** The window size of the properties has its least significant byte first. */
  lemma WindowLittleEndian(b0: Byte, b1: Byte, b2: Byte, b3: Byte)
    ensures LzmaDec.LittleEndian(b0, b1, b2, b3) == LzmaCoding.Number([b3, b2, b1, b0])
  {
    FourBytes(b3, b2, b1, b0);
  }

  /** The stream of encoded bits: a zero byte, the first code, and the rest; the decoder starts on it with the encoder's coder. */
  lemma EncodedStream(p: Prop, chs: seq<LzmaCoding.Choice>)
    requires PropOk(p) && LzmaCoding.ChoicesOk(chs)
    ensures LzmaCoding.Shift(4) == U32 && LzmaCoding.Encoded(chs).code < U32
    ensures var c := LzmaCoding.Encoded(chs);
            var stream := [0] + LzmaCoding.Digits(c.code, 4) + c.inp;
            && CodeOf(stream) == c.code && stream[HEADER..] == c.inp
            && Start(FreshCore(p, CodeOf(stream)), stream[HEADER..]).coder == c
  {
    hide LzmaCoding.Digits, LzmaCoding.Encode, FreshCore, CodeOf;
    ShiftFour();
    var c := LzmaCoding.Encoded(chs);
    var head := LzmaCoding.Digits(c.code, 4);
    var stream := [0] + head + c.inp;
    LzmaCoding.DigitsNumber(c.code, 4);
    assert stream[1..5] == head;
    HeaderBigEndian(stream);
    assert stream[HEADER..] == c.inp;
    FreshRegisters(p, c.code);
  }

  lemma ShiftFour()
    ensures LzmaCoding.Shift(4) == U32
  {
    assert LzmaCoding.Shift(2) == 0x1_0000;
  }

  lemma FreshRegisters(p: Prop, code: nat)
    requires PropOk(p) && code < U32
    ensures FreshCore(p, code).range == U32 - 1 && FreshCore(p, code).code == code
  {
  }
}
