/** The checksum routines of include/Crc32c.h, proved equal to the bit-by-bit CRC
    of section 3.4 of RFC 2083, and what that CRC detects.

    Bit-vector facts are proved once, in small lemmas; the lemmas built on them hide
    the definitions they do not need. */
module Crc32 {
  import opened Bytes
  import opened CrcTables

  // ---------- The reference: one bit at a time ----------

  const ALL_ONES: bv32 := 0xffffffff

  function Xor(a: bv32, b: bv32): bv32 {
    a ^ b
  }

  function BitStep(c: bv32): bv32 {
    if c & 1 == 1 then 0xedb88320 ^ (c >> 1) else c >> 1
  }

  function Step4(c: bv32): bv32 {
    BitStep(BitStep(BitStep(BitStep(c))))
  }

  function Step8(c: bv32): bv32 {
    BitStep(BitStep(BitStep(BitStep(BitStep(BitStep(BitStep(BitStep(c))))))))
  }

  function Place(bit: int, weight: bv32): bv32 {
    if bit == 1 then weight else 0
  }

  // The bit pattern of a byte, zero-extended to 32 bits.
  function Word(b: byte): bv32 {
    Place(b % 2, 1) | Place(b / 2 % 2, 2) | Place(b / 4 % 2, 4) | Place(b / 8 % 2, 8) |
    Place(b / 16 % 2, 16) | Place(b / 32 % 2, 32) | Place(b / 64 % 2, 64) | Place(b / 128 % 2, 128)
  }

  // The register c run over the bytes s.
  function Update(c: bv32, s: seq<byte>): bv32
    decreases |s|
  {
    if s == [] then c else Update(Step8(Xor(c, Word(s[0]))), s[1..])
  }

  function Crc(s: seq<byte>): bv32 {
    Xor(Update(ALL_ONES, s), ALL_ONES)
  }

  // The checksum as the unsigned integer that travels in a frame.
  function CrcValue(s: seq<byte>): (n: nat)
    ensures n < 0x1_0000_0000
  {
    Crc(s) as int
  }

  // ---------- Bit-vector facts ----------

  lemma ShiftXor(a: bv32, b: bv32)
    ensures (a ^ b) >> 1 == (a >> 1) ^ (b >> 1)
  {}

  lemma LowBitXor(a: bv32, b: bv32)
    ensures ((a ^ b) & 1 == 1) <==> ((a & 1 == 1) != (b & 1 == 1))
  {}

  lemma XorMoves(p: bv32, x: bv32, y: bv32)
    ensures (p ^ x) ^ y == p ^ (x ^ y)
    ensures x ^ (p ^ y) == p ^ (x ^ y)
    ensures (p ^ x) ^ (p ^ y) == x ^ y
  {}

  lemma XorAssociates(a: bv32, b: bv32, c: bv32)
    ensures Xor(Xor(a, b), c) == Xor(a, Xor(b, c))
  {}

  lemma XorCancels(a: bv32, b: bv32, c: bv32)
    ensures Xor(a, c) == Xor(b, c) <==> a == b
    ensures Xor(c, a) == Xor(c, b) <==> a == b
  {}

  lemma BitStepLinear(a: bv32, b: bv32)
    ensures BitStep(Xor(a, b)) == Xor(BitStep(a), BitStep(b))
  {
    ShiftXor(a, b);
    LowBitXor(a, b);
    XorMoves(0xedb88320, a >> 1, b >> 1);
  }

  // The top bit of the polynomial is set, so the bit shifted out can be recovered.
  lemma BitStepInjective(a: bv32, b: bv32)
    requires BitStep(a) == BitStep(b)
    ensures a == b
  {}

  lemma Step4OfHighBits(a: bv32)
    ensures Step4(a & 0xfffffff0) == a >> 4
  {}

  lemma Step8OfHighBits(a: bv32)
    ensures Step8(a & 0xffffff00) == a >> 8
  {}

  lemma Table16Entries(i: bv32)
    requires i < 16
    ensures Table16(i) == Step4(i)
  {}

  // The 256-entry table, row by row.
  lemma Row0Entries(j: bv32)
    requires j < 16
    ensures Row0(j) == Step8(j)
  {
    match j
    case 0 => case 1 => case 2 => case 3 => case 4 => case 5 => case 6 => case 7 =>
    case 8 => case 9 => case 10 => case 11 => case 12 => case 13 => case 14 => case _ =>
  }

  lemma Row1Entries(j: bv32)
    requires j < 16
    ensures Row1(j) == Step8(0x10 | j)
  {
    match j
    case 0 => case 1 => case 2 => case 3 => case 4 => case 5 => case 6 => case 7 =>
    case 8 => case 9 => case 10 => case 11 => case 12 => case 13 => case 14 => case _ =>
  }

  lemma Row2Entries(j: bv32)
    requires j < 16
    ensures Row2(j) == Step8(0x20 | j)
  {
    match j
    case 0 => case 1 => case 2 => case 3 => case 4 => case 5 => case 6 => case 7 =>
    case 8 => case 9 => case 10 => case 11 => case 12 => case 13 => case 14 => case _ =>
  }

  lemma Row3Entries(j: bv32)
    requires j < 16
    ensures Row3(j) == Step8(0x30 | j)
  {
    match j
    case 0 => case 1 => case 2 => case 3 => case 4 => case 5 => case 6 => case 7 =>
    case 8 => case 9 => case 10 => case 11 => case 12 => case 13 => case 14 => case _ =>
  }

  lemma Row4Entries(j: bv32)
    requires j < 16
    ensures Row4(j) == Step8(0x40 | j)
  {
    match j
    case 0 => case 1 => case 2 => case 3 => case 4 => case 5 => case 6 => case 7 =>
    case 8 => case 9 => case 10 => case 11 => case 12 => case 13 => case 14 => case _ =>
  }

  lemma Row5Entries(j: bv32)
    requires j < 16
    ensures Row5(j) == Step8(0x50 | j)
  {
    match j
    case 0 => case 1 => case 2 => case 3 => case 4 => case 5 => case 6 => case 7 =>
    case 8 => case 9 => case 10 => case 11 => case 12 => case 13 => case 14 => case _ =>
  }

  lemma Row6Entries(j: bv32)
    requires j < 16
    ensures Row6(j) == Step8(0x60 | j)
  {
    match j
    case 0 => case 1 => case 2 => case 3 => case 4 => case 5 => case 6 => case 7 =>
    case 8 => case 9 => case 10 => case 11 => case 12 => case 13 => case 14 => case _ =>
  }

  lemma Row7Entries(j: bv32)
    requires j < 16
    ensures Row7(j) == Step8(0x70 | j)
  {
    match j
    case 0 => case 1 => case 2 => case 3 => case 4 => case 5 => case 6 => case 7 =>
    case 8 => case 9 => case 10 => case 11 => case 12 => case 13 => case 14 => case _ =>
  }

  lemma Row8Entries(j: bv32)
    requires j < 16
    ensures Row8(j) == Step8(0x80 | j)
  {
    match j
    case 0 => case 1 => case 2 => case 3 => case 4 => case 5 => case 6 => case 7 =>
    case 8 => case 9 => case 10 => case 11 => case 12 => case 13 => case 14 => case _ =>
  }

  lemma Row9Entries(j: bv32)
    requires j < 16
    ensures Row9(j) == Step8(0x90 | j)
  {
    match j
    case 0 => case 1 => case 2 => case 3 => case 4 => case 5 => case 6 => case 7 =>
    case 8 => case 9 => case 10 => case 11 => case 12 => case 13 => case 14 => case _ =>
  }

  lemma RowAEntries(j: bv32)
    requires j < 16
    ensures RowA(j) == Step8(0xa0 | j)
  {
    match j
    case 0 => case 1 => case 2 => case 3 => case 4 => case 5 => case 6 => case 7 =>
    case 8 => case 9 => case 10 => case 11 => case 12 => case 13 => case 14 => case _ =>
  }

  lemma RowBEntries(j: bv32)
    requires j < 16
    ensures RowB(j) == Step8(0xb0 | j)
  {
    match j
    case 0 => case 1 => case 2 => case 3 => case 4 => case 5 => case 6 => case 7 =>
    case 8 => case 9 => case 10 => case 11 => case 12 => case 13 => case 14 => case _ =>
  }

  lemma RowCEntries(j: bv32)
    requires j < 16
    ensures RowC(j) == Step8(0xc0 | j)
  {
    match j
    case 0 => case 1 => case 2 => case 3 => case 4 => case 5 => case 6 => case 7 =>
    case 8 => case 9 => case 10 => case 11 => case 12 => case 13 => case 14 => case _ =>
  }

  lemma RowDEntries(j: bv32)
    requires j < 16
    ensures RowD(j) == Step8(0xd0 | j)
  {
    match j
    case 0 => case 1 => case 2 => case 3 => case 4 => case 5 => case 6 => case 7 =>
    case 8 => case 9 => case 10 => case 11 => case 12 => case 13 => case 14 => case _ =>
  }

  lemma RowEEntries(j: bv32)
    requires j < 16
    ensures RowE(j) == Step8(0xe0 | j)
  {
    match j
    case 0 => case 1 => case 2 => case 3 => case 4 => case 5 => case 6 => case 7 =>
    case 8 => case 9 => case 10 => case 11 => case 12 => case 13 => case 14 => case _ =>
  }

  lemma RowFEntries(j: bv32)
    requires j < 16
    ensures RowF(j) == Step8(0xf0 | j)
  {
    match j
    case 0 => case 1 => case 2 => case 3 => case 4 => case 5 => case 6 => case 7 =>
    case 8 => case 9 => case 10 => case 11 => case 12 => case 13 => case 14 => case _ =>
  }

  lemma IndexSplits(i: bv32)
    requires i < 256
    ensures i & 15 < 16 && i >> 4 < 16 && i == ((i >> 4) << 4) | (i & 15)
  {}

  lemma Table256Entries(i: bv32)
    requires i < 256
    ensures Table256(i) == Step8(i)
  {
    hide Step8, Row0, Row1, Row2, Row3, Row4, Row5, Row6, Row7, Row8, Row9, RowA, RowB, RowC, RowD, RowE, RowF;
    IndexSplits(i);
    var j := i & 15;
    match i >> 4
    case 0 => Row0Entries(j);
    case 1 => Row1Entries(j);
    case 2 => Row2Entries(j);
    case 3 => Row3Entries(j);
    case 4 => Row4Entries(j);
    case 5 => Row5Entries(j);
    case 6 => Row6Entries(j);
    case 7 => Row7Entries(j);
    case 8 => Row8Entries(j);
    case 9 => Row9Entries(j);
    case 10 => RowAEntries(j);
    case 11 => RowBEntries(j);
    case 12 => RowCEntries(j);
    case 13 => RowDEntries(j);
    case 14 => RowEEntries(j);
    case _ => RowFEntries(j);
  }

  lemma SplitLowByte(x: bv32)
    ensures x == Xor(x & 0xff, x & 0xffffff00) && x & 0xff < 256
  {}

  lemma SplitLowNibble(x: bv32)
    ensures x == Xor(x & 0xf, x & 0xfffffff0) && x & 0xf < 16
  {}

  // ---------- Steps are linear and injective ----------

  lemma Step4Linear(a: bv32, b: bv32)
    ensures Step4(Xor(a, b)) == Xor(Step4(a), Step4(b))
  {
    hide BitStep, Xor;
    var a1, b1 := BitStep(a), BitStep(b);
    var a2, b2 := BitStep(a1), BitStep(b1);
    BitStepLinear(a, b);
    BitStepLinear(a1, b1);
    BitStepLinear(a2, b2);
    BitStepLinear(BitStep(a2), BitStep(b2));
  }

  lemma Step8IsTwoStep4(c: bv32)
    ensures Step8(c) == Step4(Step4(c))
  {
    hide BitStep;
  }

  lemma Step8Linear(a: bv32, b: bv32)
    ensures Step8(Xor(a, b)) == Xor(Step8(a), Step8(b))
  {
    hide BitStep, Step4, Step8, Xor;
    Step8IsTwoStep4(a);
    Step8IsTwoStep4(b);
    Step8IsTwoStep4(Xor(a, b));
    Step4Linear(a, b);
    Step4Linear(Step4(a), Step4(b));
  }

  lemma Step4Injective(a: bv32, b: bv32)
    requires Step4(a) == Step4(b)
    ensures a == b
  {
    hide BitStep;
    var a1, b1 := BitStep(a), BitStep(b);
    var a2, b2 := BitStep(a1), BitStep(b1);
    BitStepInjective(BitStep(a2), BitStep(b2));
    BitStepInjective(a2, b2);
    BitStepInjective(a1, b1);
    BitStepInjective(a, b);
  }

  lemma Step8Injective(a: bv32, b: bv32)
    requires Step8(a) == Step8(b)
    ensures a == b
  {
    hide BitStep, Step4, Step8;
    Step8IsTwoStep4(a);
    Step8IsTwoStep4(b);
    Step4Injective(Step4(a), Step4(b));
    Step4Injective(a, b);
  }

  // Looking up the low bits and shifting the rest down is four, or eight, bit steps.
  lemma NibbleLookup(x: bv32)
    ensures Xor(Table16(x & 0xf), x >> 4) == Step4(x)
  {
    hide BitStep, Step4, Xor, Table16;
    SplitLowNibble(x);
    Step4Linear(x & 0xf, x & 0xfffffff0);
    Step4OfHighBits(x);
    Table16Entries(x & 0xf);
  }

  lemma ByteLookup(x: bv32)
    ensures Xor(Table256(x & 0xff), x >> 8) == Step8(x)
  {
    hide BitStep, Step4, Step8, Xor, Table256;
    SplitLowByte(x);
    Step8Linear(x & 0xff, x & 0xffffff00);
    Step8OfHighBits(x);
    Table256Entries(x & 0xff);
  }

  // ---------- Bytes read as C++ chars ----------

  // A char after integer promotion and conversion to uint32_t: sign-extended
  // where plain char is signed.
  function Promote(b: byte, signedChar: bool): bv32 {
    if signedChar && b >= 128 then 0xffffff00 | Word(b) else Word(b)
  }

  // A promoted char shifted right by four; the shift keeps the sign.
  function ShiftChar(w: bv32): bv32 {
    if w & 0x80000000 != 0 then 0xf0000000 | (w >> 4) else w >> 4
  }

  lemma WordIsByte(b: byte)
    ensures Word(b) & 0xff == Word(b)
  {
    hide Place;
    PlaceIsWeight(b % 2, 1); PlaceIsWeight(b / 2 % 2, 2);
    PlaceIsWeight(b / 4 % 2, 4); PlaceIsWeight(b / 8 % 2, 8);
    PlaceIsWeight(b / 16 % 2, 16); PlaceIsWeight(b / 32 % 2, 32);
    PlaceIsWeight(b / 64 % 2, 64); PlaceIsWeight(b / 128 % 2, 128);
  }

  lemma PlaceIsWeight(bit: int, weight: bv32)
    ensures Place(bit, weight) & weight == Place(bit, weight)
  {}

  lemma PromoteKeepsByte(b: byte, signedChar: bool)
    ensures Promote(b, signedChar) & 0xff == Word(b)
  {
    hide Word;
    WordIsByte(b);
    MaskOfExtended(Word(b));
  }

  lemma MaskOfExtended(w: bv32)
    ensures (0xffffff00 | w) & 0xff == w & 0xff
  {}

  lemma NibblesOfChar(w: bv32)
    ensures ShiftChar(w) & 0xf == (w & 0xff) >> 4
    ensures Xor(w & 0xf, (ShiftChar(w) & 0xf) << 4) == w & 0xff
  {}

  // Only the low bits of the promoted char reach the register.
  lemma LowByteDecides(c: bv32, w: bv32)
    ensures (c ^ w) & 0xff == Xor(c, w & 0xff) & 0xff
  {}

  lemma HighBytesKept(c: bv32, w: bv32)
    ensures c >> 8 == Xor(c, w & 0xff) >> 8
  {}

  lemma LowNibbleDecides(c: bv32, w: bv32)
    ensures (c ^ w) & 0xf == Xor(c, w & 0xf) & 0xf
  {}

  lemma HighNibblesKept(c: bv32, w: bv32)
    ensures c >> 4 == Xor(c, w & 0xf) >> 4
  {}

  // One iteration of crc32_long.
  function LongStep(c: bv32, w: bv32): bv32 {
    Xor(Table256((c ^ w) & 0xff), c >> 8)
  }

  // One half of an iteration of crc32_short.
  function ShortStep(c: bv32, w: bv32): bv32 {
    Xor(Table16((c ^ w) & 0xf), c >> 4)
  }

  lemma LongStepIsStep8(c: bv32, w: bv32)
    ensures LongStep(c, w) == Step8(Xor(c, w & 0xff))
  {
    hide BitStep, Step8, Xor, Table256;
    LowByteDecides(c, w);
    HighBytesKept(c, w);
    ByteLookup(Xor(c, w & 0xff));
  }

  lemma ShortStepIsStep4(c: bv32, w: bv32)
    ensures ShortStep(c, w) == Step4(Xor(c, w & 0xf))
  {
    hide BitStep, Step4, Xor, Table16;
    LowNibbleDecides(c, w);
    HighNibblesKept(c, w);
    NibbleLookup(Xor(c, w & 0xf));
  }

  lemma MaskTwice(w: bv32)
    ensures (w & 0xf) & 0xf == w & 0xf
  {}

  lemma Step4OfShifted(n: bv32)
    requires n < 16
    ensures Step4(n << 4) == n
  {}

  lemma TwoShortSteps(c: bv32, w: bv32)
    ensures ShortStep(ShortStep(c, w & 0xf), ShiftChar(w)) == Step8(Xor(c, w & 0xff))
  {
    hide BitStep, Step4, Step8, Xor, ShortStep, ShiftChar;
    var lo, hi := w & 0xf, ShiftChar(w) & 0xf;
    ShortStepIsStep4(c, lo);
    MaskTwice(w);
    ShortStepIsStep4(Step4(Xor(c, lo)), ShiftChar(w));
    NibblesOfChar(w);
    SplitLowNibble(ShiftChar(w));
    Step4OfShifted(hi);
    Step4Linear(Xor(c, lo), hi << 4);
    XorAssociates(c, lo, hi << 4);
    Step8IsTwoStep4(Xor(c, w & 0xff));
  }

  // ---------- Running over bytes ----------

  lemma {:induction false} UpdateConcat(c: bv32, a: seq<byte>, b: seq<byte>)
    ensures Update(c, a + b) == Update(Update(c, a), b)
    decreases |a|
  {
    hide Step8, Xor, Word;
    if a == [] {
      assert a + b == b;
    } else {
      assert (a + b)[1..] == a[1..] + b;
      UpdateConcat(Step8(Xor(c, Word(a[0]))), a[1..], b);
    }
  }

  lemma UpdateSnoc(c: bv32, s: seq<byte>, k: nat)
    requires k < |s|
    ensures Update(c, s[..k + 1]) == Step8(Xor(Update(c, s[..k]), Word(s[k])))
  {
    hide Step8, Xor, Word;
    assert s[..k + 1] == s[..k] + [s[k]];
    UpdateConcat(c, s[..k], [s[k]]);
    var c1 := Update(c, s[..k]);
    assert Update(c1, [s[k]]) == Update(Step8(Xor(c1, Word(s[k]))), []);
  }

  method Crc32Update(c: bv32, buff: seq<byte>, signedChar: bool) returns (crc: bv32)
    ensures crc == Update(c, buff)
  {
    hide Step8, Xor, Word, LongStep, Promote;
    crc := c;
    for i := 0 to |buff|
      invariant crc == Update(c, buff[..i])
    {
      LongStepIsStep8(crc, Promote(buff[i], signedChar));
      PromoteKeepsByte(buff[i], signedChar);
      UpdateSnoc(c, buff, i);
      crc := LongStep(crc, Promote(buff[i], signedChar));
    }
    assert buff[..|buff|] == buff;
  }

  method Crc32Long(buff: seq<byte>, signedChar: bool) returns (crc: bv32)
    ensures crc == Crc(buff)
  {
    hide Step8, Xor, Word, LongStep, Promote;
    crc := ALL_ONES;
    for i := 0 to |buff|
      invariant crc == Update(ALL_ONES, buff[..i])
    {
      LongStepIsStep8(crc, Promote(buff[i], signedChar));
      PromoteKeepsByte(buff[i], signedChar);
      UpdateSnoc(ALL_ONES, buff, i);
      crc := LongStep(crc, Promote(buff[i], signedChar));
    }
    assert buff[..|buff|] == buff;
    crc := Xor(crc, ALL_ONES);
  }

  method Crc32Short(buff: seq<byte>, signedChar: bool) returns (crc: bv32)
    ensures crc == Crc(buff)
  {
    hide Step8, Xor, Word, ShortStep, ShiftChar, Promote;
    crc := ALL_ONES;
    for i := 0 to |buff|
      invariant crc == Update(ALL_ONES, buff[..i])
    {
      var c := Promote(buff[i], signedChar);
      TwoShortSteps(crc, c);
      PromoteKeepsByte(buff[i], signedChar);
      UpdateSnoc(ALL_ONES, buff, i);
      crc := ShortStep(crc, c & 0xf);
      crc := ShortStep(crc, ShiftChar(c));
    }
    assert buff[..|buff|] == buff;
    crc := Xor(crc, ALL_ONES);
  }

  lemma CheckWords()
    ensures Word(49) == 49 && Word(50) == 50 && Word(51) == 51 && Word(52) == 52 && Word(53) == 53
    ensures Word(54) == 54 && Word(55) == 55 && Word(56) == 56 && Word(57) == 57
  {
  }

  lemma CheckSteps()
    ensures Step8(Xor(0xffffffff, Word(49))) == 0x7c231048
    ensures Step8(Xor(0x7c231048, Word(50))) == 0xb0acbb32
    ensures Step8(Xor(0xb0acbb32, Word(51))) == 0x77b79c2d
    ensures Step8(Xor(0x77b79c2d, Word(52))) == 0x641c1f5c
    ensures Step8(Xor(0x641c1f5c, Word(53))) == 0x340ac5e3
  {
    hide Word;
    CheckWords();
  }

  lemma MoreCheckSteps()
    ensures Step8(Xor(0x340ac5e3, Word(54))) == 0xf68d2c9e
    ensures Step8(Xor(0xf68d2c9e, Word(55))) == 0xaffc9660
    ensures Step8(Xor(0xaffc9660, Word(56))) == 0x651f2550
    ensures Step8(Xor(0x651f2550, Word(57))) == 0x340bc6d9
  {
    hide Word;
    CheckWords();
  }

  lemma Feed(s: seq<byte>, k: nat, before: bv32, after: bv32)
    requires k < |s| && Update(ALL_ONES, s[..k]) == before && Step8(Xor(before, Word(s[k]))) == after
    ensures Update(ALL_ONES, s[..k + 1]) == after
  {
    hide Update, Word, Step8, Xor;
    UpdateSnoc(ALL_ONES, s, k);
  }

  lemma CheckHalf(s: seq<byte>)
    requires s == [49, 50, 51, 52, 53, 54, 55, 56, 57]
    ensures Update(ALL_ONES, s[..5]) == 0x340ac5e3
  {
    hide Update, Word, Step8, Xor;
    UpdateNone(ALL_ONES);
    CheckSteps();
    assert s[..0] == [];
    Feed(s, 0, 0xffffffff, 0x7c231048);
    Feed(s, 1, 0x7c231048, 0xb0acbb32);
    Feed(s, 2, 0xb0acbb32, 0x77b79c2d);
    Feed(s, 3, 0x77b79c2d, 0x641c1f5c);
    Feed(s, 4, 0x641c1f5c, 0x340ac5e3);
  }

  lemma CheckRun(s: seq<byte>)
    requires s == [49, 50, 51, 52, 53, 54, 55, 56, 57]
    ensures Update(ALL_ONES, s) == 0x340bc6d9
  {
    hide Update, Word, Step8, Xor;
    CheckHalf(s);
    MoreCheckSteps();
    Feed(s, 5, 0x340ac5e3, 0xf68d2c9e);
    Feed(s, 6, 0xf68d2c9e, 0xaffc9660);
    Feed(s, 7, 0xaffc9660, 0x651f2550);
    Feed(s, 8, 0x651f2550, 0x340bc6d9);
    assert s[..9] == s;
  }

  // The check value of this CRC: the bytes of "123456789" give 0xcbf43926.
  lemma CheckValue(s: seq<byte>)
    requires s == [49, 50, 51, 52, 53, 54, 55, 56, 57]
    ensures Crc(s) == 0xcbf43926
  {
    hide Update;
    CheckRun(s);
  }

  // ---------- Error detection ----------

  lemma PlaceInjective(x: int, y: int, weight: bv32)
    requires 0 <= x < 2 && 0 <= y < 2 && weight != 0
    requires Place(x, weight) == Place(y, weight)
    ensures x == y
  {}

  lemma UpperBits(b: byte)
    ensures b / 16 == b / 16 % 2 + 2 * (b / 32 % 2) + 4 * (b / 64 % 2) + 8 * (b / 128 % 2)
  {
    assert b / 128 == b / 128 % 2;
    assert b / 64 == 2 * (b / 128) + b / 64 % 2;
    assert b / 32 == 2 * (b / 64) + b / 32 % 2;
    assert b / 16 == 2 * (b / 32) + b / 16 % 2;
  }

  lemma LowerBits(b: byte)
    ensures b == 16 * (b / 16) + b % 2 + 2 * (b / 2 % 2) + 4 * (b / 4 % 2) + 8 * (b / 8 % 2)
  {
    assert b / 8 == 2 * (b / 16) + b / 8 % 2;
    assert b / 4 == 2 * (b / 8) + b / 4 % 2;
    assert b / 2 == 2 * (b / 4) + b / 2 % 2;
  }

  lemma ByteFromBits(b: byte)
    ensures b == b % 2 + 2 * (b / 2 % 2) + 4 * (b / 4 % 2) + 8 * (b / 8 % 2) +
                 16 * (b / 16 % 2) + 32 * (b / 32 % 2) + 64 * (b / 64 % 2) + 128 * (b / 128 % 2)
  {
    UpperBits(b);
    LowerBits(b);
  }

  // Eight one-bit values with distinct weights can be read back off their union.
  lemma PlacesSeparate(p0: bv32, p1: bv32, p2: bv32, p3: bv32, p4: bv32, p5: bv32, p6: bv32, p7: bv32)
    requires p0 & 1 == p0 && p1 & 2 == p1 && p2 & 4 == p2 && p3 & 8 == p3
    requires p4 & 16 == p4 && p5 & 32 == p5 && p6 & 64 == p6 && p7 & 128 == p7
    ensures var w := p0 | p1 | p2 | p3 | p4 | p5 | p6 | p7;
      w & 1 == p0 && w & 2 == p1 && w & 4 == p2 && w & 8 == p3 &&
      w & 16 == p4 && w & 32 == p5 && w & 64 == p6 && w & 128 == p7
  {}

  lemma WordBits(b: byte)
    ensures Word(b) & 1 == Place(b % 2, 1) && Word(b) & 2 == Place(b / 2 % 2, 2)
    ensures Word(b) & 4 == Place(b / 4 % 2, 4) && Word(b) & 8 == Place(b / 8 % 2, 8)
    ensures Word(b) & 16 == Place(b / 16 % 2, 16) && Word(b) & 32 == Place(b / 32 % 2, 32)
    ensures Word(b) & 64 == Place(b / 64 % 2, 64) && Word(b) & 128 == Place(b / 128 % 2, 128)
  {
    hide Place;
    PlaceIsWeight(b % 2, 1); PlaceIsWeight(b / 2 % 2, 2);
    PlaceIsWeight(b / 4 % 2, 4); PlaceIsWeight(b / 8 % 2, 8);
    PlaceIsWeight(b / 16 % 2, 16); PlaceIsWeight(b / 32 % 2, 32);
    PlaceIsWeight(b / 64 % 2, 64); PlaceIsWeight(b / 128 % 2, 128);
    PlacesSeparate(Place(b % 2, 1), Place(b / 2 % 2, 2), Place(b / 4 % 2, 4), Place(b / 8 % 2, 8),
                   Place(b / 16 % 2, 16), Place(b / 32 % 2, 32), Place(b / 64 % 2, 64), Place(b / 128 % 2, 128));
  }

  lemma WordInjective(a: byte, b: byte)
    requires Word(a) == Word(b)
    ensures a == b
  {
    hide Place, Word;
    WordBits(a);
    WordBits(b);
    PlaceInjective(a % 2, b % 2, 1);
    PlaceInjective(a / 2 % 2, b / 2 % 2, 2);
    PlaceInjective(a / 4 % 2, b / 4 % 2, 4);
    PlaceInjective(a / 8 % 2, b / 8 % 2, 8);
    PlaceInjective(a / 16 % 2, b / 16 % 2, 16);
    PlaceInjective(a / 32 % 2, b / 32 % 2, 32);
    PlaceInjective(a / 64 % 2, b / 64 % 2, 64);
    PlaceInjective(a / 128 % 2, b / 128 % 2, 128);
    ByteFromBits(a);
    ByteFromBits(b);
  }

  // Equal bytes cannot merge two registers.
  lemma {:induction false} UpdateInjective(c: bv32, d: bv32, s: seq<byte>)
    requires Update(c, s) == Update(d, s)
    ensures c == d
    decreases |s|
  {
    hide Step8, Xor, Word;
    if s != [] {
      var w := Word(s[0]);
      UpdateInjective(Step8(Xor(c, w)), Step8(Xor(d, w)), s[1..]);
      Step8Injective(Xor(c, w), Xor(d, w));
      XorCancels(c, d, w);
    }
  }

  function Up(x: bv32): bv32 {
    x << 8
  }

  // Four bytes as one register-wide word, first byte lowest.
  function Pack(a: bv32, b: bv32, c: bv32, d: bv32): bv32 {
    Xor(Xor(Xor(a, Up(b)), Up(Up(c))), Up(Up(Up(d))))
  }

  lemma Step8OfUp(x: bv32)
    requires x & 0x00ffffff == x
    ensures Step8(Up(x)) == x
  {}

  lemma UpStaysLow(w: bv32)
    requires w & 0xff == w
    ensures w & 0x00ffffff == w && Up(w) & 0x00ffffff == Up(w) && Up(Up(w)) & 0x00ffffff == Up(Up(w))
  {}

  lemma PackByte0(a: bv32, b: bv32, c: bv32, d: bv32)
    requires a & 0xff == a
    ensures Pack(a, b, c, d) & 0xff == a
  {}

  lemma PackByte1(a: bv32, b: bv32, c: bv32, d: bv32)
    requires a & 0xff == a && b & 0xff == b
    ensures (Pack(a, b, c, d) >> 8) & 0xff == b
  {}

  lemma PackByte2(a: bv32, b: bv32, c: bv32, d: bv32)
    requires a & 0xff == a && b & 0xff == b && c & 0xff == c
    ensures (Pack(a, b, c, d) >> 16) & 0xff == c
  {}

  lemma PackByte3(a: bv32, b: bv32, c: bv32, d: bv32)
    requires a & 0xff == a && b & 0xff == b && c & 0xff == c && d & 0xff == d
    ensures (Pack(a, b, c, d) >> 24) & 0xff == d
  {}

  lemma PackInjective(a: bv32, b: bv32, c: bv32, d: bv32, a': bv32, b': bv32, c': bv32, d': bv32)
    requires a & 0xff == a && b & 0xff == b && c & 0xff == c && d & 0xff == d
    requires a' & 0xff == a' && b' & 0xff == b' && c' & 0xff == c' && d' & 0xff == d'
    requires Pack(a, b, c, d) == Pack(a', b', c', d')
    ensures a == a' && b == b' && c == c' && d == d'
  {
    hide Pack;
    PackByte0(a, b, c, d); PackByte0(a', b', c', d');
    PackByte1(a, b, c, d); PackByte1(a', b', c', d');
    PackByte2(a, b, c, d); PackByte2(a', b', c', d');
    PackByte3(a, b, c, d); PackByte3(a', b', c', d');
  }

  // A byte fed after a step can be fed, shifted up, before it.
  lemma FeedEarlier(c: bv32, x: bv32)
    requires x & 0x00ffffff == x
    ensures Xor(Step8(c), x) == Step8(Xor(c, Up(x)))
  {
    hide Step8, Xor, Up;
    Step8Linear(c, Up(x));
    Step8OfUp(x);
  }

  function Step32(c: bv32): bv32 {
    Step8(Step8(Step8(Step8(c))))
  }

  // Four bytes one after the other act as their packed word at once.
  lemma FeedFour(c: bv32, w0: bv32, w1: bv32, w2: bv32, w3: bv32)
    requires w1 & 0xff == w1 && w2 & 0xff == w2 && w3 & 0xff == w3
    ensures Step8(Xor(Step8(Xor(Step8(Xor(Step8(Xor(c, w0)), w1)), w2)), w3)) == Step32(Xor(c, Pack(w0, w1, w2, w3)))
  {
    hide Step8, Xor, Up;
    var c0 := Xor(c, w0);
    var c1 := Xor(c0, Up(w1));
    var c2 := Xor(c1, Up(Up(w2)));
    UpStaysLow(w1);
    UpStaysLow(w2);
    UpStaysLow(w3);
    FeedEarlier(c0, w1);
    FeedEarlier(Step8(c1), w2);
    FeedEarlier(c1, Up(w2));
    FeedEarlier(Step8(Step8(c2)), w3);
    FeedEarlier(Step8(c2), Up(w3));
    FeedEarlier(c2, Up(Up(w3)));
    XorAssociates(c, w0, Up(w1));
    XorAssociates(c, Xor(w0, Up(w1)), Up(Up(w2)));
    XorAssociates(c, Xor(Xor(w0, Up(w1)), Up(Up(w2))), Up(Up(Up(w3))));
  }

  lemma UpdateNone(c: bv32)
    ensures Update(c, []) == c
  {}

  lemma UpdateFour(c: bv32, u: seq<byte>)
    requires |u| == 4
    ensures Update(c, u) == Step32(Xor(c, Pack(Word(u[0]), Word(u[1]), Word(u[2]), Word(u[3]))))
  {
    hide Step8, Step32, Xor, Word, Pack, Update;
    UpdateNone(c);
    UpdateSnoc(c, u, 0);
    UpdateSnoc(c, u, 1);
    UpdateSnoc(c, u, 2);
    UpdateSnoc(c, u, 3);
    assert u[..0] == [] && u[..4] == u;
    WordIsByte(u[1]);
    WordIsByte(u[2]);
    WordIsByte(u[3]);
    FeedFour(c, Word(u[0]), Word(u[1]), Word(u[2]), Word(u[3]));
  }

  lemma Step32Injective(x: bv32, y: bv32)
    requires Step32(x) == Step32(y)
    ensures x == y
  {
    hide Step8;
    Step8Injective(Step8(Step8(Step8(x))), Step8(Step8(Step8(y))));
    Step8Injective(Step8(Step8(x)), Step8(Step8(y)));
    Step8Injective(Step8(x), Step8(y));
    Step8Injective(x, y);
  }

  // From any register, distinct four-byte words lead to distinct registers.
  lemma UpdateFourInjective(c: bv32, u: seq<byte>, v: seq<byte>)
    requires |u| == |v| == 4 && Update(c, u) == Update(c, v)
    ensures u == v
  {
    hide Step8, Step32, Xor, Word, Update, Pack;
    UpdateFour(c, u);
    UpdateFour(c, v);
    var p := Pack(Word(u[0]), Word(u[1]), Word(u[2]), Word(u[3]));
    var q := Pack(Word(v[0]), Word(v[1]), Word(v[2]), Word(v[3]));
    Step32Injective(Xor(c, p), Xor(c, q));
    XorCancels(p, q, c);
    WordIsByte(u[0]); WordIsByte(u[1]); WordIsByte(u[2]); WordIsByte(u[3]);
    WordIsByte(v[0]); WordIsByte(v[1]); WordIsByte(v[2]); WordIsByte(v[3]);
    PackInjective(Word(u[0]), Word(u[1]), Word(u[2]), Word(u[3]), Word(v[0]), Word(v[1]), Word(v[2]), Word(v[3]));
    WordInjective(u[0], v[0]);
    WordInjective(u[1], v[1]);
    WordInjective(u[2], v[2]);
    WordInjective(u[3], v[3]);
  }

  lemma UpdateBurstInjective(c: bv32, u: seq<byte>, v: seq<byte>)
    requires |u| == |v| <= 4 && Update(c, u) == Update(c, v)
    ensures u == v
  {
    hide Update;
    var pad: seq<byte> := seq(4 - |u|, _ => 0);
    UpdateConcat(c, u, pad);
    UpdateConcat(c, v, pad);
    UpdateFourInjective(c, u + pad, v + pad);
    assert u == (u + pad)[..|u|] && v == (v + pad)[..|v|];
  }

  // Payloads of equal length that agree outside four adjacent bytes and have the
  // same checksum are the same payload.
  lemma CrcDecidesBurst(before: seq<byte>, u: seq<byte>, v: seq<byte>, after: seq<byte>)
    requires |u| == |v| <= 4
    requires Crc(before + u + after) == Crc(before + v + after)
    ensures u == v
  {
    hide Xor, Update;
    XorCancels(Update(ALL_ONES, before + u + after), Update(ALL_ONES, before + v + after), ALL_ONES);
    var c := Update(ALL_ONES, before);
    UpdateConcat(ALL_ONES, before + u, after);
    UpdateConcat(ALL_ONES, before + v, after);
    UpdateConcat(ALL_ONES, before, u);
    UpdateConcat(ALL_ONES, before, v);
    UpdateInjective(Update(c, u), Update(c, v), after);
    UpdateBurstInjective(c, u, v);
  }
}
