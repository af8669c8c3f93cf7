/** The short command stream of src/npu_matmul_mesa.c, whose packing macro does not mask its parts. */
module MesaStream {
  import opened Bits
  import opened NpuHw
  import opened Commands
  import opened RegisterFile
  import opened MesaRegisters
  import opened Reserved
  import opened Generator

  const REG_CNA_WEIGHT_DATA_ADDR := 0x1074
  // The DPU offsets of this file need 17 bits.
  const REG_DPU_OPERATION_ENABLE := 0x1_0008
  const REG_DPU_DST_BASE_ADDR_LOW := 0x1_0010
  const REG_DPU_DST_LINE_STRIDE := 0x1_0018
  const REG_DPU_DST_SURFACE_STRIDE := 0x1_001C

  const STREAM_LENGTH := 17

  /** MESA_REGCMD, computed in uint64_t. */
  function MesaCmd(target: nat, value: nat, reg: nat): nat {
    And(Or(Or(Shl(target, 48), Shl(value, 16)), reg), Mask(64))
  }

  /** The write that a macro call is meant to express, and its word. */
  function MesaWord(w: Write): nat
    requires w.op >= 0 && w.reg >= 0
  {
    MesaCmd(w.op, w.value, w.reg)
  }

  /** The writes of the stream, in order. */
  function Intended(i: nat, p: Params): (w: Write)
    requires i < STREAM_LENGTH
    ensures w.op >= 0 && w.reg >= 0
  {
    assert p.m * p.n >= 0;
    match i
    case 0 => Write(PC, REG_PC_BASE_ADDRESS, 0)
    case 1 => Write(PC, PC_REGISTER_AMOUNTS, 0)
    case 2 => Write(CNA, CNA_CONV_CON1, 0x90)
    case 3 => Write(CNA, CNA_DATA_SIZE0, 0x1_0000 + p.m)
    case 4 => Write(CNA, CNA_DATA_SIZE1, p.k)
    case 5 => Write(CNA, CNA_WEIGHT_SIZE2, 0x101_0000 + p.n)
    case 6 => Write(CNA, CNA_FEATURE_DATA_ADDR, p.inputDma)
    case 7 => Write(CNA, REG_CNA_WEIGHT_DATA_ADDR, p.weightsDma)
    case 8 => Write(DPU, REG_DPU_DST_BASE_ADDR_LOW, p.outputDma)
    case 9 => Write(DPU, REG_DPU_DST_LINE_STRIDE, p.n * 2)
    case 10 => Write(DPU, REG_DPU_DST_SURFACE_STRIDE, p.m * p.n * 2)
    case 11 => Write(PC, PC_OPERATION_ENABLE, 1)
    case 12 => Write(CNA, REG_CNA_OPERATION_ENABLE, 1)
    case 13 => Write(DPU, REG_DPU_OPERATION_ENABLE, 1)
    case 14 => Write(DPU, REG_DPU_OPERATION_ENABLE, 0)
    case 15 => Write(CNA, REG_CNA_OPERATION_ENABLE, 0)
    case _ => Write(PC, PC_OPERATION_ENABLE, 0)
  }

  // ----- bits of sums

  lemma {:induction false} AboveMask(q: nat, w: nat, i: nat)
    requires q <= Mask(w)
    ensures Bit(Mask(w) + 1 + q, i) <==> i == w || Bit(q, i)
    decreases w
  {
    if w == 0 {
      if i > 0 { BitZero(i); BitZero(i - 1); }
    } else if i > 0 {
      AboveMask(q / 2, w - 1, i - 1);
    }
  }

  lemma {:induction false} BitOne(i: nat)
    ensures Bit(1, i) <==> i == 0
  {
    if i > 0 { BitZero(i - 1); }
  }

  /** Adding a bit above a number is or-ing it in. */
  lemma OrAbove(q: nat, w: nat)
    requires q <= Mask(w)
    ensures Or(q, Shl(1, w)) == Mask(w) + 1 + q
  {
    forall i: nat
      ensures Bit(Or(q, Shl(1, w)), i) == Bit(Mask(w) + 1 + q, i)
    {
      BitOr(q, Shl(1, w), i);
      BitShl(1, w, i);
      if i >= w { BitOne(i - w); }
      AboveMask(q, w, i);
    }
    Extensional(Or(q, Shl(1, w)), Mask(w) + 1 + q);
  }

  lemma OrOne(x: nat)
    ensures Or(x, 1) == x - x % 2 + 1
  {
    OrZero(x / 2);
  }

  // ----- one word

  lemma MesaBit(target: nat, value: nat, reg: nat, i: nat)
    ensures Bit(MesaCmd(target, value, reg), i) <==>
            (i < 64 && ((i >= 48 && Bit(target, i - 48)) || (i >= 16 && Bit(value, i - 16)) || Bit(reg, i)))
  {
    hide And, Or, Shl, Mask, Bit;
    BitAnd(Or(Or(Shl(target, 48), Shl(value, 16)), reg), Mask(64), i);
    BitMask(64, i);
    BitOr(Or(Shl(target, 48), Shl(value, 16)), reg, i);
    BitOr(Shl(target, 48), Shl(value, 16), i);
    BitShl(target, 48, i);
    BitShl(value, 16, i);
  }

  lemma NpuOpBit(op: nat, value: nat, reg: nat, i: nat)
    ensures Bit(NpuOp(op, value, reg), i) <==>
            ((48 <= i < 64 && Bit(op, i - 48)) || (16 <= i < 48 && Bit(value, i - 16)) || (i < 16 && Bit(reg, i)))
  {
    hide And, Or, Shl, Mask, Bit, Pack, NpuOp;
    var fs := [Field(op, 16, 48), Field(value, 32, 16), Field(reg, 16, 0)];
    NpuOpIsPack(op, value, reg);
    PackBit(fs, i);
    assert Supplies(fs[0], i) || Supplies(fs[1], i) || Supplies(fs[2], i) <==>
           exists j :: 0 <= j < |fs| && Supplies(fs[j], i);
  }

  lemma HighBitsClear(x: nat, w: nat, i: nat)
    requires x <= Mask(w) && i >= w
    ensures !Bit(x, i)
  {
    MaskKeeps(x, w);
    BitAnd(x, Mask(w), i);
    BitMask(w, i);
  }

  /** The unmasked macro round-trips exactly when all three parts fit their places. */
  lemma MesaRoundTrip(w: Write)
    requires w.op >= 0 && w.reg >= 0
    ensures Decode(MesaWord(w)) == w <==> w.op < 0x1_0000 && w.value < 0x1_0000_0000 && w.reg < 0x1_0000
  {
    hide And, Or, Shl, Mask, Bit, NpuOp, MesaCmd, Decode;
    MaskValues();
    if w.op < 0x1_0000 && w.value < 0x1_0000_0000 && w.reg < 0x1_0000 {
      forall i: nat
        ensures Bit(MesaWord(w), i) == Bit(NpuOp(w.op, w.value, w.reg), i)
      {
        MesaBit(w.op, w.value, w.reg, i);
        NpuOpBit(w.op, w.value, w.reg, i);
        if i >= 64 { HighBitsClear(w.op, 16, i - 48); }
        if i >= 48 { HighBitsClear(w.value, 32, i - 16); }
        if i >= 16 { HighBitsClear(w.reg, 16, i); }
      }
      Extensional(MesaWord(w), NpuOp(w.op, w.value, w.reg));
      DecodeNpuOp(w.op, w.value, w.reg);
    }
    DecodeBounds(MesaWord(w));
  }

  lemma DecodeBounds(word: nat)
    ensures 0 <= Decode(word).op < 0x1_0000 && Decode(word).value < 0x1_0000_0000 && 0 <= Decode(word).reg < 0x1_0000
  {
    hide And, Mask, Shr;
    MaskValues();
    MaskKeeps(Shr(word, 48), 16);
    MaskKeeps(Shr(word, 16), 32);
    MaskKeeps(Shr(word, 0), 16);
  }

  /** A 17-bit register constant spills into the value: the register loses its top bit and bit 0 of
      the value becomes 1. */
  lemma WideRegister(w: Write)
    requires 0 <= w.op < 0x1_0000 && w.value < 0x1_0000_0000 && 0x1_0000 <= w.reg < 0x2_0000
    ensures MesaWord(w) == NpuOp(w.op, w.value - w.value % 2 + 1, w.reg - 0x1_0000)
    ensures Decode(MesaWord(w)) == Write(w.op, w.reg - 0x1_0000, w.value - w.value % 2 + 1)
  {
    hide And, Or, Shl, Mask, Bit, NpuOp, MesaCmd, Decode;
    var q, v := w.reg - 0x1_0000, Or(w.value, 1);
    MaskValues();
    OrOne(w.value);
    forall i: nat
      ensures Bit(MesaWord(w), i) == Bit(NpuOp(w.op, v, q), i)
    {
      MesaBit(w.op, w.value, w.reg, i);
      NpuOpBit(w.op, v, q, i);
      AboveMask(q, 16, i);
      if i >= 16 {
        HighBitsClear(q, 16, i);
        BitOr(w.value, 1, i - 16);
        BitOne(i - 16);
      }
      if i >= 64 { HighBitsClear(w.op, 16, i - 48); }
      if i >= 48 { HighBitsClear(w.value, 32, i - 16); }
    }
    Extensional(MesaWord(w), NpuOp(w.op, v, q));
    DecodeNpuOp(w.op, v, q);
  }

  // ----- the stream

  predicate NeedsWideRegister(i: nat) {
    8 <= i <= 10 || i == 13 || i == 14
  }

  /** The commands for the PC and the CNA. */
  method AppendInputs(p: Params, regcmd: array<nat>, start: int) returns (idx: int)
    requires start == 0 && regcmd.Length >= STREAM_LENGTH
    modifies regcmd
    ensures idx == 8
    ensures forall i :: 0 <= i < 8 ==> regcmd[i] == MesaWord(Intended(i, p))
    ensures forall i :: 8 <= i < regcmd.Length ==> regcmd[i] == old(regcmd[i])
  {
    hide MesaCmd, Or, Shl;
    BitfieldValues(p);
    idx := start;
    regcmd[idx] := MesaCmd(PC, 0, REG_PC_BASE_ADDRESS); idx := idx + 1;
    regcmd[idx] := MesaCmd(PC, 0, PC_REGISTER_AMOUNTS); idx := idx + 1;
    var convCon1 := Or(Or(Shl(0, 0), Shl(1, 4)), Shl(1, 7));
    regcmd[idx] := MesaCmd(CNA, convCon1, CNA_CONV_CON1); idx := idx + 1;
    var dataSize0 := Or(Shl(p.m, 0), Shl(1, 16));
    regcmd[idx] := MesaCmd(CNA, dataSize0, CNA_DATA_SIZE0); idx := idx + 1;
    var dataSize1 := Shl(p.k, 0);
    regcmd[idx] := MesaCmd(CNA, dataSize1, CNA_DATA_SIZE1); idx := idx + 1;
    var weightSize2 := Or(Or(Shl(p.n, 0), Shl(1, 16)), Shl(1, 24));
    regcmd[idx] := MesaCmd(CNA, weightSize2, CNA_WEIGHT_SIZE2); idx := idx + 1;
    regcmd[idx] := MesaCmd(CNA, p.inputDma, CNA_FEATURE_DATA_ADDR); idx := idx + 1;
    regcmd[idx] := MesaCmd(CNA, p.weightsDma, REG_CNA_WEIGHT_DATA_ADDR); idx := idx + 1;
  }

  /** The commands for the DPU. */
  method AppendOutputs(p: Params, regcmd: array<nat>, start: int) returns (idx: int)
    requires start == 8 && regcmd.Length >= STREAM_LENGTH && p.m * p.n < 0x4000_0000
    modifies regcmd
    ensures idx == 11
    ensures forall i :: 8 <= i < 11 ==> regcmd[i] == MesaWord(Intended(i, p))
    ensures forall i :: 0 <= i < regcmd.Length && !(8 <= i < 11) ==> regcmd[i] == old(regcmd[i])
  {
    hide MesaCmd;
    ProductBounds(p.m, p.n);
    idx := start;
    regcmd[idx] := MesaCmd(DPU, p.outputDma, REG_DPU_DST_BASE_ADDR_LOW); idx := idx + 1;
    regcmd[idx] := MesaCmd(DPU, p.n * 2, REG_DPU_DST_LINE_STRIDE); idx := idx + 1;
    regcmd[idx] := MesaCmd(DPU, p.m * p.n * 2, REG_DPU_DST_SURFACE_STRIDE); idx := idx + 1;
  }

  /** The enable and disable sequence. */
  method AppendEnables(p: Params, regcmd: array<nat>, start: int) returns (idx: int)
    requires start == 11 && regcmd.Length >= STREAM_LENGTH
    modifies regcmd
    ensures idx == STREAM_LENGTH
    ensures forall i :: 11 <= i < STREAM_LENGTH ==> regcmd[i] == MesaWord(Intended(i, p))
    ensures forall i :: 0 <= i < regcmd.Length && !(11 <= i < STREAM_LENGTH) ==> regcmd[i] == old(regcmd[i])
  {
    hide MesaCmd;
    idx := start;
    regcmd[idx] := MesaCmd(PC, 1, PC_OPERATION_ENABLE); idx := idx + 1;
    regcmd[idx] := MesaCmd(CNA, 1, REG_CNA_OPERATION_ENABLE); idx := idx + 1;
    regcmd[idx] := MesaCmd(DPU, 1, REG_DPU_OPERATION_ENABLE); idx := idx + 1;
    regcmd[idx] := MesaCmd(DPU, 0, REG_DPU_OPERATION_ENABLE); idx := idx + 1;
    regcmd[idx] := MesaCmd(CNA, 0, REG_CNA_OPERATION_ENABLE); idx := idx + 1;
    regcmd[idx] := MesaCmd(PC, 0, PC_OPERATION_ENABLE); idx := idx + 1;
  }

  method GenMatmulFp16Stream(p: Params, regcmd: array<nat>) returns (idx: int)
    requires p.m * p.n < 0x4000_0000  // M * N * 2 is formed in a signed int
    requires regcmd.Length >= STREAM_LENGTH
    modifies regcmd
    ensures idx == STREAM_LENGTH
    ensures regcmd[..STREAM_LENGTH] == StreamWords(p)
    ensures forall i :: STREAM_LENGTH <= i < regcmd.Length ==> regcmd[i] == old(regcmd[i])
  {
    hide MesaWord, Intended;
    idx := AppendInputs(p, regcmd, 0);
    idx := AppendOutputs(p, regcmd, idx);
    idx := AppendEnables(p, regcmd, idx);
  }

  /** The bitfield macros of the stream, as numbers. */
  lemma BitfieldValues(p: Params)
    ensures Or(Or(Shl(0, 0), Shl(1, 4)), Shl(1, 7)) == 0x90
    ensures Or(Shl(p.m, 0), Shl(1, 16)) == 0x1_0000 + p.m && Shl(p.k, 0) == p.k
    ensures Or(Or(Shl(p.n, 0), Shl(1, 16)), Shl(1, 24)) == 0x101_0000 + p.n
  {
    hide Or, Mask;
    MaskValues();
    assert Mask(4) == 0xF && Mask(7) == 0x7F && Mask(24) == 0xFF_FFFF by { MaskPart(); }
    OrAbove(0, 4);
    OrAbove(0x10, 7);
    OrAbove(p.m, 16);
    OrAbove(p.n, 16);
    OrAbove(0x1_0000 + p.n, 24);
  }

  lemma MaskPart()
    ensures Mask(7) == 0x7F && Mask(24) == 0xFF_FFFF
  {
    MaskValues();
    assert Mask(22) == 0x3F_FFFF && Mask(23) == 0x7F_FFFF;
    assert Mask(5) == 0x1F && Mask(6) == 0x3F;
  }

  /** Every PC and CNA command of the stream means what it says; every DPU command loses the top bit
      of its register and forces bit 0 of its value. */
  lemma StreamDecodes(i: nat, p: Params)
    requires i < STREAM_LENGTH && p.m * p.n < 0x4000_0000
    ensures !NeedsWideRegister(i) ==> Decode(MesaWord(Intended(i, p))) == Intended(i, p)
    ensures NeedsWideRegister(i) ==> var w := Intended(i, p);
                                     Decode(MesaWord(w)) == Write(w.op, w.reg - 0x1_0000, w.value - w.value % 2 + 1)
  {
    hide MesaCmd, MesaWord, Decode;
    var w := Intended(i, p);
    if NeedsWideRegister(i) { WideRegister(w); } else { MesaRoundTrip(w); }
  }

  /** Command `i` of the stream decodes to this write. */
  predicate Writes(p: Params, i: nat, op: int, reg: int, value: int)
    requires i < STREAM_LENGTH
  {
    var w := Decode(MesaWord(Intended(i, p)));
    w.op == op && w.reg == reg && w.value == value
  }

  /** What the 17 commands decode to, in order and by value. */
  lemma StreamWrites(p: Params)
    requires p.m * p.n < 0x4000_0000
    ensures Writes(p, 0, 0x100, 0x10, 0) && Writes(p, 1, 0x100, 0x14, 0)
    ensures Writes(p, 2, 0x200, 0x100C, 0x90)
    ensures Writes(p, 3, 0x200, 0x1020, 0x1_0000 + p.m)
    ensures Writes(p, 4, 0x200, 0x1024, p.k)
    ensures Writes(p, 5, 0x200, 0x1038, 0x101_0000 + p.n)
    ensures Writes(p, 6, 0x200, 0x1070, p.inputDma) && Writes(p, 7, 0x200, 0x1074, p.weightsDma)
    ensures Writes(p, 8, 0x1000, 0x10, p.outputDma / 2 * 2 + 1)
    ensures Writes(p, 9, 0x1000, 0x18, p.n * 2 + 1) && Writes(p, 10, 0x1000, 0x1C, p.m * p.n * 2 + 1)
    ensures Writes(p, 11, 0x100, 0x8, 1) && Writes(p, 12, 0x200, 0x1008, 1) && Writes(p, 13, 0x1000, 0x8, 1)
    ensures Writes(p, 14, 0x1000, 0x8, 1) && Writes(p, 15, 0x200, 0x1008, 0) && Writes(p, 16, 0x100, 0x8, 0)
  {
    hide MesaCmd, MesaWord, Decode;
    ProductBounds(p.m, p.n);
    forall i | 0 <= i < STREAM_LENGTH
      ensures var w := Intended(i, p);
              if NeedsWideRegister(i) then Writes(p, i, w.op, w.reg - 0x1_0000, w.value - w.value % 2 + 1)
              else Writes(p, i, w.op, w.reg, w.value)
    {
      CommandWrites(i, p);
    }
  }

  lemma CommandWrites(i: nat, p: Params)
    requires i < STREAM_LENGTH && p.m * p.n < 0x4000_0000
    ensures var w := Intended(i, p);
            if NeedsWideRegister(i) then Writes(p, i, w.op, w.reg - 0x1_0000, w.value - w.value % 2 + 1)
            else Writes(p, i, w.op, w.reg, w.value)
  {
    hide MesaCmd, MesaWord, Decode, Intended;
    StreamDecodes(i, p);
  }

  // ----- the register file after the stream

  function StreamWords(p: Params): (words: seq<nat>)
    ensures |words| == STREAM_LENGTH
  {
    seq(STREAM_LENGTH, i requires 0 <= i < STREAM_LENGTH => MesaWord(Intended(i, p)))
  }

  lemma StreamKey(i: nat, p: Params)
    requires i < STREAM_LENGTH && p.m * p.n < 0x4000_0000
    ensures Key(StreamWords(p)[i]) == (Intended(i, p).op, Intended(i, p).reg % 0x1_0000)
    ensures var x := Intended(i, p).value;
            Decode(StreamWords(p)[i]).value == if NeedsWideRegister(i) then x / 2 * 2 + 1 else x
  {
    hide MesaCmd, MesaWord, Decode;
    StreamDecodes(i, p);
  }

  /** Only the registers of the three enable commands are written again. */
  lemma LaterKeys(i: nat, j: nat, p: Params)
    requires i < j < STREAM_LENGTH && !(11 <= i <= 13)
    ensures (Intended(i, p).op, Intended(i, p).reg % 0x1_0000) != (Intended(j, p).op, Intended(j, p).reg % 0x1_0000)
  {
  }

  lemma FinalWrite(i: nat, p: Params)
    requires i < STREAM_LENGTH && !(11 <= i <= 13) && p.m * p.n < 0x4000_0000
    ensures var w := Intended(i, p);
            Contains(Run(StreamWords(p)), (w.op, w.reg % 0x1_0000),
                     if NeedsWideRegister(i) then w.value / 2 * 2 + 1 else w.value)
  {
    hide Decode, Key, Intended, StreamWords;
    var key, value := Key(StreamWords(p)[i]), Decode(StreamWords(p)[i]).value;
    StreamKey(i, p);
    forall j | i < j < STREAM_LENGTH
      ensures Key(StreamWords(p)[j]) != key
    {
      StreamKey(j, p);
      LaterKeys(i, j, p);
    }
    LastWriteWins(StreamWords(p), key, value);
  }

  /** What the stream leaves in the registers. The CNA knows the sizes and the addresses; the address and the
      strides of the output are in a block of their own at DPU 0x10, each with bit 0 set; the PC and the CNA end
      disabled, the DPU's enable register ends at 1. */
  lemma StreamMeansCall(p: Params)
    requires p.m * p.n < 0x4000_0000
    ensures var r := Run(StreamWords(p));
            && Contains(r, (0x100, 0x10), 0) && Contains(r, (0x100, 0x14), 0)
            && Contains(r, (0x200, 0x100C), 0x90)
            && Contains(r, (0x200, 0x1020), 0x1_0000 + p.m)
            && Contains(r, (0x200, 0x1024), p.k)
            && Contains(r, (0x200, 0x1038), 0x101_0000 + p.n)
            && Contains(r, (0x200, 0x1070), p.inputDma) && Contains(r, (0x200, 0x1074), p.weightsDma)
            && Contains(r, (0x1000, 0x10), p.outputDma / 2 * 2 + 1)
            && Contains(r, (0x1000, 0x18), p.n * 2 + 1) && Contains(r, (0x1000, 0x1C), p.m * p.n * 2 + 1)
            && Contains(r, (0x100, 0x8), 0) && Contains(r, (0x200, 0x1008), 0) && Contains(r, (0x1000, 0x8), 1)
  {
    hide Run, StreamWords, Contains;
    FinalInputs(p);
    FinalOutputs(p);
  }

  lemma FinalInputs(p: Params)
    requires p.m * p.n < 0x4000_0000
    ensures var r := Run(StreamWords(p));
            && Contains(r, (0x100, 0x10), 0) && Contains(r, (0x100, 0x14), 0)
            && Contains(r, (0x200, 0x100C), 0x90)
            && Contains(r, (0x200, 0x1020), 0x1_0000 + p.m)
            && Contains(r, (0x200, 0x1024), p.k)
            && Contains(r, (0x200, 0x1038), 0x101_0000 + p.n)
            && Contains(r, (0x200, 0x1070), p.inputDma) && Contains(r, (0x200, 0x1074), p.weightsDma)
  {
    hide Run, StreamWords, Contains;
    FinalWrite(0, p);
    FinalWrite(1, p);
    FinalWrite(2, p);
    FinalWrite(3, p);
    FinalWrite(4, p);
    FinalWrite(5, p);
    FinalWrite(6, p);
    FinalWrite(7, p);
  }

  lemma FinalOutputs(p: Params)
    requires p.m * p.n < 0x4000_0000
    ensures var r := Run(StreamWords(p));
            && Contains(r, (0x1000, 0x10), p.outputDma / 2 * 2 + 1)
            && Contains(r, (0x1000, 0x18), p.n * 2 + 1) && Contains(r, (0x1000, 0x1C), p.m * p.n * 2 + 1)
            && Contains(r, (0x100, 0x8), 0) && Contains(r, (0x200, 0x1008), 0) && Contains(r, (0x1000, 0x8), 1)
  {
    hide Run, StreamWords, Contains, MesaWord, MesaCmd, Decode, Key;
    ProductBounds(p.m, p.n);
    FinalWrite(8, p);
    FinalWrite(9, p);
    FinalWrite(10, p);
    FinalWrite(14, p);
    FinalWrite(15, p);
    FinalWrite(16, p);
  }

  /** So the DPU is never disabled: its enable and disable commands are the same word. */
  lemma DisableIsEnable(p: Params)
    ensures MesaWord(Intended(13, p)) == MesaWord(Intended(14, p))
    ensures Decode(MesaWord(Intended(14, p))) == Write(DPU, 0x8, 1)
  {
    hide MesaCmd, MesaWord, Decode, NpuOp;
    WideRegister(Intended(13, p));
    WideRegister(Intended(14, p));
  }

  /** None of the DPU commands reaches a register that belongs to the DPU. */
  lemma DpuCommandsMissTheDpu(i: nat, p: Params)
    requires i < STREAM_LENGTH && NeedsWideRegister(i) && p.m * p.n < 0x4000_0000
    ensures var w := Decode(MesaWord(Intended(i, p)));
            w.op == DPU && 0 <= w.reg < 0x5000 && TargetOf(w.reg) != DPU
  {
    hide MesaCmd, MesaWord, Decode;
    StreamDecodes(i, p);
  }

  // ----- reserved bits of the PC and CNA commands

  /** Bit `b` is reserved in the register of command `i` and set in its value. */
  predicate Spills(i: nat, p: Params, b: nat)
    requires i < STREAM_LENGTH && b < 32 && !NeedsWideRegister(i)
  {
    ReservedBit(Intended(i, p).reg, b) && Bit(Intended(i, p).value, b)
  }

  lemma SpillsIsUnclear(i: nat, p: Params, b: nat)
    requires i < STREAM_LENGTH && b < 32 && !NeedsWideRegister(i) && p.m * p.n < 0x4000_0000
    ensures Clear(MesaWord(Intended(i, p)), b) <==> !Spills(i, p, b)
  {
    hide MesaCmd, MesaWord, Decode, Bit, ReservedBit, Intended;
    StreamDecodes(i, p);
  }

  /** DATA_SIZE0 has 11 bits for the height, WEIGHT_SIZE2 14 for the kernels, and the register that
      receives the weights address is described as 17 bits of weight offset. */
  lemma SizesSpill(p: Params, b: nat)
    requires b < 32
    ensures Spills(3, p, b) <==> 11 <= b < 16 && Bit(p.m, b)
    ensures Spills(5, p, b) <==> 14 <= b < 16 && Bit(p.n, b)
    ensures Spills(7, p, b) <==> 17 <= b && Bit(p.weightsDma, b)
  {
    hide Bit, Mask;
    MaskValues();
    MaskPart();
    AboveMask(p.m, 16, b);
    AboveMask(p.n, 16, b);
    AboveMask(0x1_0000 + p.n, 24, b);
    if b >= 16 {
      HighBitsClear(p.m, 16, b);
      HighBitsClear(p.n, 16, b);
    }
  }

  lemma OthersClear(i: nat, p: Params, b: nat)
    requires i < STREAM_LENGTH && b < 32 && !NeedsWideRegister(i) && i != 3 && i != 5 && i != 7
    ensures !Spills(i, p, b)
  {
    hide Bit, Mask;
    MaskValues();
    BitZero(b);
    BitOne(b);
    if b >= 16 { HighBitsClear(p.k, 16, b); }
    if b >= 8 { HighBitsClear(0x90, 8, b); }
  }

  ghost predicate ReservedKept(p: Params) {
    forall i, b :: 0 <= i < STREAM_LENGTH && !NeedsWideRegister(i) && 0 <= b < 32 ==> Clear(MesaWord(Intended(i, p)), b)
  }

  /** The three ways to set a reserved bit. */
  predicate Oversized(i: nat, p: Params, b: nat) {
    (i == 3 && 11 <= b < 16 && Bit(p.m, b)) || (i == 5 && 14 <= b < 16 && Bit(p.n, b))
    || (i == 7 && 17 <= b < 32 && Bit(p.weightsDma, b))
  }

  lemma ClearUnlessOversized(i: nat, p: Params, b: nat)
    requires i < STREAM_LENGTH && b < 32 && !NeedsWideRegister(i) && p.m * p.n < 0x4000_0000
    ensures Clear(MesaWord(Intended(i, p)), b) <==> !Oversized(i, p, b)
  {
    hide MesaWord, Clear, Spills, Bit, Intended;
    SpillsIsUnclear(i, p, b);
    SizesSpill(p, b);
    if i != 3 && i != 5 && i != 7 { OthersClear(i, p, b); }
  }

  lemma NoneOversized(p: Params)
    ensures (forall i: nat, b: nat :: !Oversized(i, p, b)) <==> p.m < 2048 && p.n < 16384 && p.weightsDma < 0x2_0000
  {
    hide Bit, Mask;
    MaskValues();
    FitsNarrower(p.m, 11, 16);
    FitsNarrower(p.n, 14, 16);
    FitsNarrower(p.weightsDma, 17, 32);
    if forall i: nat, b: nat :: !Oversized(i, p, b) {
      forall b: nat | 11 <= b < 16
        ensures !Bit(p.m, b)
      {
        assert !Oversized(3, p, b);
      }
      forall b: nat | 14 <= b < 16
        ensures !Bit(p.n, b)
      {
        assert !Oversized(5, p, b);
      }
      forall b: nat | 17 <= b < 32
        ensures !Bit(p.weightsDma, b)
      {
        assert !Oversized(7, p, b);
      }
    }
  }

  /** The PC and CNA commands keep every reserved bit clear exactly for these sizes and addresses. */
  lemma StreamReservedIff(p: Params)
    requires p.m * p.n < 0x4000_0000
    ensures ReservedKept(p) <==> p.m < 2048 && p.n < 16384 && p.weightsDma < 0x2_0000
  {
    hide MesaWord, Clear, Intended, Oversized;
    NoneOversized(p);
    forall i: nat, b: nat | i < STREAM_LENGTH && !NeedsWideRegister(i) && b < 32
      ensures Clear(MesaWord(Intended(i, p)), b) <==> !Oversized(i, p, b)
    {
      ClearUnlessOversized(i, p, b);
    }
    if i: nat, b: nat :| Oversized(i, p, b) {
      assert (i == 3 || i == 5 || i == 7) && b < 32 by { OversizedRange(i, p, b); }
      assert !Clear(MesaWord(Intended(i, p)), b);
    }
  }

  lemma OversizedRange(i: nat, p: Params, b: nat)
    requires Oversized(i, p, b)
    ensures (i == 3 || i == 5 || i == 7) && b < 32
  {
    hide Bit;
  }

  /** The weights address goes to a register that is described as 17 bits of weight offset: reserved
      bits stay clear only for addresses below 2^17. */
  lemma WeightsAddressReserved(p: Params)
    requires p.m * p.n < 0x4000_0000
    ensures (forall b: nat :: b < 32 ==> Clear(MesaWord(Intended(7, p)), b)) <==> p.weightsDma < 0x2_0000
  {
    hide MesaWord, Clear, Intended, Bit, Mask;
    MaskValues();
    FitsNarrower(p.weightsDma, 17, 32);
    forall b: nat | b < 32
      ensures Clear(MesaWord(Intended(7, p)), b) <==> !Oversized(7, p, b)
    {
      ClearUnlessOversized(7, p, b);
    }
    assert forall b: nat :: 17 <= b < 32 && Bit(p.weightsDma, b) ==> Oversized(7, p, b);
  }
}
