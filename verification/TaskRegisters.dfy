/** The register file that a task leaves behind, register by register: block, offset and value as numbers.

    Nothing here refers to the encoder's tables: offsets are written out, and a value is a sum of members
    reduced to the width that the encoder masks them to and weighted by their position. The lists name 104
    registers, which are all of them (`NoOtherRegisters`). */
module TaskRegisters {
  import opened Bits
  import opened Descriptors
  import opened Commands
  import opened RegisterFile
  import opened Task

  lemma NoOtherRegisters(d: Descriptors)
    ensures |Run(TaskWords(d))| == 104
  {
    hide Decode, Pack, CommandAt, NpuOp;
    TaskKeysDistinct(d);
    RunSize(TaskWords(d));
  }

  lemma SlotTotal(i: nat, d: Descriptors)
    requires i < REGISTER_WRITES
    ensures Contains(Run(TaskWords(d)), (CommandAt(i, d).op, CommandAt(i, d).reg), Total(CommandAt(i, d).fields))
  {
    hide Run, TaskWords, Pack, Total, CommandAt;
    RegisterValue(i, d);
    FieldsShaped(i, d);
    PackIsTotal(CommandAt(i, d).fields);
  }

  // ----- the register of a command with one, two, ... fields

  lemma Register1(d: Descriptors, i: nat, op: int, reg: int, a: Field)
    requires i < REGISTER_WRITES && CommandAt(i, d) == Command(op, reg, [a])
    ensures Contains(Run(TaskWords(d)), (op, reg), Amount(a))
  {
    hide Run, TaskWords, Total, CommandAt;
    SlotTotal(i, d);
    TotalUnfolds();
  }

  lemma Register2(d: Descriptors, i: nat, op: int, reg: int, a: Field, b: Field)
    requires i < REGISTER_WRITES && CommandAt(i, d) == Command(op, reg, [a, b])
    ensures Contains(Run(TaskWords(d)), (op, reg), Amount(a) + Amount(b))
  {
    hide Run, TaskWords, Total, CommandAt;
    SlotTotal(i, d);
    TotalUnfolds();
  }

  lemma Register3(d: Descriptors, i: nat, op: int, reg: int, a: Field, b: Field, c: Field)
    requires i < REGISTER_WRITES && CommandAt(i, d) == Command(op, reg, [a, b, c])
    ensures Contains(Run(TaskWords(d)), (op, reg), Amount(a) + Amount(b) + Amount(c))
  {
    hide Run, TaskWords, Total, CommandAt;
    SlotTotal(i, d);
    TotalUnfolds();
  }

  lemma Register4(d: Descriptors, i: nat, op: int, reg: int, a: Field, b: Field, c: Field, e: Field)
    requires i < REGISTER_WRITES && CommandAt(i, d) == Command(op, reg, [a, b, c, e])
    ensures Contains(Run(TaskWords(d)), (op, reg), Amount(a) + Amount(b) + Amount(c) + Amount(e))
  {
    hide Run, TaskWords, Total, CommandAt;
    SlotTotal(i, d);
    TotalUnfolds();
  }

  lemma Register5(d: Descriptors, i: nat, op: int, reg: int, a: Field, b: Field, c: Field, e: Field, f: Field)
    requires i < REGISTER_WRITES && CommandAt(i, d) == Command(op, reg, [a, b, c, e, f])
    ensures Contains(Run(TaskWords(d)), (op, reg), Amount(a) + Amount(b) + Amount(c) + Amount(e) + Amount(f))
  {
    hide Run, TaskWords, Total, CommandAt;
    SlotTotal(i, d);
    TotalUnfolds();
  }

  // ----- what one field contributes, for the widths and positions that occur

  lemma Weights()
    ensures Mask(0) == 0 && Mask(6) == 0x3F && Mask(7) == 0x7F && Mask(9) == 0x1FF
    ensures Mask(24) == 0xFF_FFFF && Mask(26) == 0x3FF_FFFF && Mask(29) == 0x1FFF_FFFF
  {
    MaskValues();
    assert Mask(23) == 0x7F_FFFF && Mask(25) == 0x1FF_FFFF;
  }

  lemma WideAmounts()
    ensures forall x :: Amount(Field(x, 32, 0)) == x % 0x1_0000_0000 && Amount(Field(x, 28, 0)) == x % 0x1000_0000
    ensures forall x :: Amount(Field(x, 28, 4)) == x % 0x1000_0000 * 16
    ensures forall x :: Amount(Field(x, 19, 0)) == x % 0x8_0000 && Amount(Field(x, 18, 0)) == x % 0x4_0000
    ensures forall x :: Amount(Field(x, 17, 0)) == x % 0x2_0000
    ensures forall x :: Amount(Field(x, 16, 16)) == x % 0x1_0000 * 0x1_0000 && Amount(Field(x, 16, 0)) == x % 0x1_0000
    ensures forall x :: Amount(Field(x, 14, 0)) == x % 0x4000 && Amount(Field(x, 13, 0)) == x % 0x2000
    ensures forall x :: Amount(Field(x, 13, 16)) == x % 0x2000 * 0x1_0000
    ensures forall x :: Amount(Field(x, 11, 16)) == x % 0x800 * 0x1_0000 && Amount(Field(x, 11, 0)) == x % 0x800
    ensures forall x :: Amount(Field(x, 10, 4)) == x % 0x400 * 16
    ensures forall x :: Amount(Field(x, 8, 16)) == x % 0x100 * 0x1_0000
    ensures forall x :: Amount(Field(x, 5, 24)) == x % 32 * 0x100_0000 && Amount(Field(x, 5, 16)) == x % 32 * 0x1_0000
  {
    hide Mask;
    MaskValues();
    Weights();
  }

  lemma NarrowAmounts()
    ensures forall x :: Amount(Field(x, 4, 16)) == x % 16 * 0x1_0000 && Amount(Field(x, 4, 5)) == x % 16 * 32
    ensures forall x :: Amount(Field(x, 4, 4)) == x % 16 * 16 && Amount(Field(x, 4, 0)) == x % 16
    ensures forall x :: Amount(Field(x, 3, 29)) == x % 8 * 0x2000_0000 && Amount(Field(x, 3, 26)) == x % 8 * 0x400_0000
    ensures forall x :: Amount(Field(x, 3, 8)) == x % 8 * 256 && Amount(Field(x, 3, 7)) == x % 8 * 128
    ensures forall x :: Amount(Field(x, 3, 5)) == x % 8 * 32 && Amount(Field(x, 3, 4)) == x % 8 * 16
    ensures forall x :: Amount(Field(x, 3, 3)) == x % 8 * 8 && Amount(Field(x, 3, 2)) == x % 8 * 4
    ensures forall x :: Amount(Field(x, 3, 0)) == x % 8
    ensures forall x :: Amount(Field(x, 2, 3)) == x % 4 * 8 && Amount(Field(x, 2, 1)) == x % 4 * 2
    ensures forall x :: Amount(Field(x, 1, 16)) == x % 2 * 0x1_0000 && Amount(Field(x, 1, 9)) == x % 2 * 512
    ensures forall x :: Amount(Field(x, 1, 8)) == x % 2 * 256 && Amount(Field(x, 1, 7)) == x % 2 * 128
    ensures forall x :: Amount(Field(x, 1, 6)) == x % 2 * 64 && Amount(Field(x, 1, 4)) == x % 2 * 16
    ensures forall x :: Amount(Field(x, 1, 3)) == x % 2 * 8 && Amount(Field(x, 1, 1)) == x % 2 * 2
    ensures forall x :: Amount(Field(x, 1, 0)) == x % 2
  {
    hide Mask;
    MaskValues();
    Weights();
  }

  // ----- the CNA

  lemma SizeRegisters(d: Descriptors)
    ensures var r, cna := Run(TaskWords(d)), d.cna;
            && Contains(r, (0x0201, 0x100C), cna.procPrecision % 8 * 128 + cna.inPrecision % 8 * 16 + cna.convMode % 16)
            && Contains(r, (0x0201, 0x1010), cna.kernelGroups * 0x1_0000 + cna.featureGrains % 0x400 * 16)
            && Contains(r, (0x0201, 0x1014), cna.convYStride % 8 * 8 + cna.convXStride % 8)
            && Contains(r, (0x0201, 0x1020), cna.datainWidth % 0x800 * 0x1_0000 + cna.datainHeight % 0x800)
            && Contains(r, (0x0201, 0x1024), (cna.datainChannel - 1) % 0x1_0000 * 0x1_0000 + cna.datainChannel)
            && Contains(r, (0x0201, 0x1028), cna.dataoutWidth % 0x800)
            && Contains(r, (0x0201, 0x102C), cna.dataoutAtomics % 0x4_0000)
  {
    hide Run, TaskWords, Amount, Contains, Mask, Word;
    WideAmounts();
    NarrowAmounts();
    Register3(d, 1, 0x0201, 0x100C,
             Field(d.cna.procPrecision, 3, 7), Field(d.cna.inPrecision, 3, 4), Field(d.cna.convMode, 4, 0));
    Register2(d, 2, 0x0201, 0x1010, Field(d.cna.kernelGroups, 8, 16), Field(d.cna.featureGrains, 10, 4));
    Register2(d, 3, 0x0201, 0x1014, Field(d.cna.convYStride, 3, 3), Field(d.cna.convXStride, 3, 0));
    Register2(d, 4, 0x0201, 0x1020, Field(d.cna.datainWidth, 11, 16), Field(d.cna.datainHeight, 11, 0));
    Register2(d, 5, 0x0201, 0x1024, Field(d.cna.datainChannel - 1, 16, 16), Field(d.cna.datainChannel, 16, 0));
    Register1(d, 6, 0x0201, 0x1028, Field(d.cna.dataoutWidth, 11, 0));
    Register1(d, 7, 0x0201, 0x102C, Field(d.cna.dataoutAtomics, 18, 0));
  }

  lemma WeightRegisters(d: Descriptors)
    ensures var r, cna := Run(TaskWords(d)), d.cna;
            && Contains(r, (0x0201, 0x1030), cna.weightBytes)
            && Contains(r, (0x0201, 0x1034), cna.weightBytesPerKernel % 0x8_0000)
            && Contains(r, (0x0201, 0x1038),
                        cna.weightWidth % 32 * 0x100_0000 + cna.weightHeight % 32 * 0x1_0000
                        + cna.weightKernels % 0x4000)
            && Contains(r, (0x0201, 0x1040), cna.weightBank % 16 * 16 + cna.dataBank % 16)
            && Contains(r, (0x0201, 0x1044), cna.dataEntries % 0x2000)
            && Contains(r, (0x0201, 0x104C), cna.dataSign % 2 * 8 + cna.cvtType % 2 * 2 + cna.cvtBypass % 2)
            && Contains(r, (0x0201, 0x1050), cna.cvtScale0 * 0x1_0000)
            && Contains(r, (0x0201, 0x1054), cna.cvtScale1 * 0x1_0000)
            && Contains(r, (0x0201, 0x1058), cna.cvtScale2 * 0x1_0000)
            && Contains(r, (0x0201, 0x105C), cna.cvtScale3 * 0x1_0000)
  {
    hide Run, TaskWords, Amount, Contains, Mask, Word;
    WideAmounts();
    NarrowAmounts();
    Register1(d, 8, 0x0201, 0x1030, Field(d.cna.weightBytes, 32, 0));
    Register1(d, 9, 0x0201, 0x1034, Field(d.cna.weightBytesPerKernel, 19, 0));
    Register3(d, 10, 0x0201, 0x1038,
             Field(d.cna.weightWidth, 5, 24), Field(d.cna.weightHeight, 5, 16), Field(d.cna.weightKernels, 14, 0));
    Register2(d, 11, 0x0201, 0x1040, Field(d.cna.weightBank, 4, 4), Field(d.cna.dataBank, 4, 0));
    Register1(d, 12, 0x0201, 0x1044, Field(d.cna.dataEntries, 13, 0));
    Register3(d, 13, 0x0201, 0x104C,
             Field(d.cna.dataSign, 1, 3), Field(d.cna.cvtType, 1, 1), Field(d.cna.cvtBypass, 1, 0));
    Register1(d, 14, 0x0201, 0x1050, Field(d.cna.cvtScale0, 16, 16));
    Register1(d, 15, 0x0201, 0x1054, Field(d.cna.cvtScale1, 16, 16));
    Register1(d, 16, 0x0201, 0x1058, Field(d.cna.cvtScale2, 16, 16));
    Register1(d, 17, 0x0201, 0x105C, Field(d.cna.cvtScale3, 16, 16));
  }

  lemma DmaRegisters(d: Descriptors)
    ensures var r, cna := Run(TaskWords(d)), d.cna;
            && Contains(r, (0x0201, 0x1060), cna.fcSkipEn % 2)
            && Contains(r, (0x0201, 0x1064), cna.dataOffset)
            && Contains(r, (0x0201, 0x1068), cna.padLeft % 16 * 16 + cna.padTop % 16)
            && Contains(r, (0x0201, 0x1070), cna.featureBaseAddr)
            && Contains(r, (0x0201, 0x1074), cna.weightOffset)
            && Contains(r, (0x0201, 0x1078), cna.weightBurstLen % 16 * 0x1_0000 + cna.dataBurstLen % 16)
            && Contains(r, (0x0201, 0x107C), cna.lineStride % 0x1000_0000)
            && Contains(r, (0x0201, 0x1080), cna.surfStride % 0x1000_0000)
            && Contains(r, (0x0201, 0x1084), cna.dmaWidth % 0x800 * 0x1_0000 + cna.dmaHeight % 0x800)
            && Contains(r, (0x0201, 0x1088), cna.dmaChannel)
            && Contains(r, (0x0201, 0x1110), cna.decompressAddr0)
  {
    hide Run, TaskWords, Amount, Contains, Mask, Word;
    WideAmounts();
    NarrowAmounts();
    Register1(d, 18, 0x0201, 0x1060, Field(d.cna.fcSkipEn, 1, 0));
    Register1(d, 19, 0x0201, 0x1064, Field(d.cna.dataOffset, 17, 0));
    Register2(d, 20, 0x0201, 0x1068, Field(d.cna.padLeft, 4, 4), Field(d.cna.padTop, 4, 0));
    Register1(d, 21, 0x0201, 0x1070, Field(d.cna.featureBaseAddr, 32, 0));
    Register1(d, 22, 0x0201, 0x1074, Field(d.cna.weightOffset, 17, 0));
    Register2(d, 23, 0x0201, 0x1078, Field(d.cna.weightBurstLen, 4, 16), Field(d.cna.dataBurstLen, 4, 0));
    Register1(d, 24, 0x0201, 0x107C, Field(d.cna.lineStride, 28, 0));
    Register1(d, 25, 0x0201, 0x1080, Field(d.cna.surfStride, 28, 0));
    Register2(d, 26, 0x0201, 0x1084, Field(d.cna.dmaWidth, 11, 16), Field(d.cna.dmaHeight, 11, 0));
    Register1(d, 27, 0x0201, 0x1088, Field(d.cna.dmaChannel, 16, 0));
    Register1(d, 30, 0x0201, 0x1110, Field(d.cna.decompressAddr0, 32, 0));
  }

  // ----- the CORE and the DPU

  lemma OutputRegisters(d: Descriptors)
    ensures var r, core, dpu := Run(TaskWords(d)), d.core, d.dpu;
            && Contains(r, (0x0801, 0x3010), core.procPrecision % 8 * 256 + core.qdEn % 2)
            && Contains(r, (0x0801, 0x3014), core.dataoutHeight * 0x1_0000 + core.dataoutWidth)
            && Contains(r, (0x0801, 0x3018), core.dataoutChannel)
            && Contains(r, (0x1001, 0x4004), 0xE)
            && Contains(r, (0x1001, 0x400C),
                        dpu.burstLen % 16 * 32 + dpu.convMode % 4 * 8 + dpu.outputMode % 4 * 2 + dpu.flyingMode % 2)
            && Contains(r, (0x1001, 0x4010),
                        dpu.outPrecision % 8 * 0x2000_0000 + dpu.inPrecision % 8 * 0x400_0000 + dpu.procPrecision % 8)
            && Contains(r, (0x1001, 0x4020), dpu.dstBaseAddr)
            && Contains(r, (0x1001, 0x4024), dpu.dstSurfStride % 0x1000_0000 * 16)
            && Contains(r, (0x1001, 0x4030), dpu.width % 0x2000)
            && Contains(r, (0x1001, 0x4034), dpu.height % 0x2000)
            && Contains(r, (0x1001, 0x403C), dpu.channel % 0x2000 * 0x1_0000 + dpu.channel % 0x2000)
  {
    hide Run, TaskWords, Amount, Contains, Mask, Word;
    WideAmounts();
    NarrowAmounts();
    Register1(d, 0, 0x1001, 0x4004, Field(0xE, 4, 0));
    Register2(d, 49, 0x0801, 0x3010, Field(d.core.procPrecision, 3, 8), Field(d.core.qdEn, 1, 0));
    Register2(d, 50, 0x0801, 0x3014, Field(d.core.dataoutHeight, 16, 16), Field(d.core.dataoutWidth, 16, 0));
    Register1(d, 51, 0x0801, 0x3018, Field(d.core.dataoutChannel, 16, 0));
    Register4(d, 54, 0x1001, 0x400C,
             Field(d.dpu.burstLen, 4, 5), Field(d.dpu.convMode, 2, 3), Field(d.dpu.outputMode, 2, 1),
             Field(d.dpu.flyingMode, 1, 0));
    Register3(d, 55, 0x1001, 0x4010,
             Field(d.dpu.outPrecision, 3, 29), Field(d.dpu.inPrecision, 3, 26), Field(d.dpu.procPrecision, 3, 0));
    Register1(d, 57, 0x1001, 0x4020, Field(d.dpu.dstBaseAddr, 32, 0));
    Register1(d, 58, 0x1001, 0x4024, Field(d.dpu.dstSurfStride, 28, 4));
    Register1(d, 59, 0x1001, 0x4030, Field(d.dpu.width, 13, 0));
    Register1(d, 60, 0x1001, 0x4034, Field(d.dpu.height, 13, 0));
    Register2(d, 62, 0x1001, 0x403C, Field(d.dpu.channel, 13, 16), Field(d.dpu.channel, 13, 0));
    assert Amount(Field(0xE, 4, 0)) == 0xE;
  }

  lemma StageRegisters(d: Descriptors)
    ensures var r, dpu := Run(TaskWords(d)), d.dpu;
            && Contains(r, (0x1001, 0x4040), dpu.bsReluBypass % 2 * 64 + dpu.bsMulBypass % 2 * 16
                                             + dpu.bsAluBypass % 2 * 2 + dpu.bsBypass % 2)
            && Contains(r, (0x1001, 0x4050),
                        dpu.sizeE2 % 8 * 256 + dpu.sizeE1 % 8 * 32 + dpu.sizeE0 % 8 * 4 + dpu.odBypass % 2 * 2)
            && Contains(r, (0x1001, 0x4058), dpu.channelWdma % 0x2000)
            && Contains(r, (0x1001, 0x405C), dpu.heightWdma % 0x2000 * 0x1_0000 + dpu.widthWdma % 0x2000)
            && Contains(r, (0x1001, 0x4060), dpu.bnReluBypass % 2 * 64 + dpu.bnMulBypass % 2 * 16
                                             + dpu.bnAluBypass % 2 * 2 + dpu.bnBypass % 2)
            && Contains(r, (0x1001, 0x4070), dpu.ewReluBypass % 2 * 512 + dpu.ewOpCvtBypass % 2 * 256
                                             + dpu.ewLutBypass % 2 * 128 + dpu.ewOpBypass % 2 * 2 + dpu.ewBypass % 2)
            && Contains(r, (0x1001, 0x4078), 1)
            && Contains(r, (0x1001, 0x4084), dpu.fp32tofp16En % 2 * 0x1_0000 + dpu.outCvtScale)
            && Contains(r, (0x1001, 0x40C0), dpu.surfAdd % 0x1000_0000 * 16)
  {
    hide Run, TaskWords, Amount, Contains, Mask, Word;
    WideAmounts();
    NarrowAmounts();
    Register4(d, 63, 0x1001, 0x4040,
             Field(d.dpu.bsReluBypass, 1, 6), Field(d.dpu.bsMulBypass, 1, 4), Field(d.dpu.bsAluBypass, 1, 1),
             Field(d.dpu.bsBypass, 1, 0));
    Register4(d, 67, 0x1001, 0x4050,
             Field(d.dpu.sizeE2, 3, 8), Field(d.dpu.sizeE1, 3, 5), Field(d.dpu.sizeE0, 3, 2),
             Field(d.dpu.odBypass, 1, 1));
    Register1(d, 69, 0x1001, 0x4058, Field(d.dpu.channelWdma, 13, 0));
    Register2(d, 70, 0x1001, 0x405C, Field(d.dpu.heightWdma, 13, 16), Field(d.dpu.widthWdma, 13, 0));
    Register4(d, 71, 0x1001, 0x4060,
             Field(d.dpu.bnReluBypass, 1, 6), Field(d.dpu.bnMulBypass, 1, 4), Field(d.dpu.bnAluBypass, 1, 1),
             Field(d.dpu.bnBypass, 1, 0));
    Register5(d, 75, 0x1001, 0x4070,
             Field(d.dpu.ewReluBypass, 1, 9), Field(d.dpu.ewOpCvtBypass, 1, 8), Field(d.dpu.ewLutBypass, 1, 7),
             Field(d.dpu.ewOpBypass, 1, 1), Field(d.dpu.ewBypass, 1, 0));
    Register1(d, 77, 0x1001, 0x4078, Field(0x1, 1, 0));
    Register2(d, 80, 0x1001, 0x4084, Field(d.dpu.fp32tofp16En, 1, 16), Field(d.dpu.outCvtScale, 16, 0));
    Register1(d, 90, 0x1001, 0x40C0, Field(d.dpu.surfAdd, 28, 4));
    assert Amount(Field(1, 1, 0)) == 1;
  }

  // ----- the registers that are cleared

  lemma ClearedInputRegisters(d: Descriptors, reg: int)
    requires reg % 4 == 0
    ensures reg == 0x1100 || reg == 0x1104 || 0x1140 <= reg <= 0x1184 ==> Contains(Run(TaskWords(d)), (0x0201, reg), 0)
    ensures reg == 0x301C || reg == 0x3030 ==> Contains(Run(TaskWords(d)), (0x0801, reg), 0)
  {
    hide Run, TaskWords, Total, Contains, Mask, Word;
    TotalUnfolds();
    SlotTotal(28, d);
    SlotTotal(29, d);
    SlotTotal(52, d);
    SlotTotal(53, d);
    if 0x1140 <= reg <= 0x1184 { SlotTotal(31 + (reg - 0x1140) / 4, d); }
  }

  /** Offsets, comparison values and operands. */
  lemma ClearedStageRegisters(d: Descriptors, reg: int)
    requires reg % 4 == 0
    ensures reg == 0x4014 || reg == 0x4038 || 0x4044 <= reg <= 0x404C || reg == 0x4054 || 0x4064 <= reg <= 0x406C
            ==> Contains(Run(TaskWords(d)), (0x1001, reg), 0)
  {
    hide Run, TaskWords, Total, Contains, Mask, Word;
    TotalUnfolds();
    SlotTotal(56, d);
    SlotTotal(61, d);
    SlotTotal(68, d);
    if 0x4044 <= reg <= 0x404C { SlotTotal(64 + (reg - 0x4044) / 4, d); }
    if 0x4064 <= reg <= 0x406C { SlotTotal(72 + (reg - 0x4064) / 4, d); }
  }

  /** Elementwise operands and lookup tables. */
  lemma ClearedOperandRegisters(d: Descriptors, reg: int)
    requires reg % 4 == 0
    ensures reg == 0x4074 || reg == 0x407C || reg == 0x4080 || reg == 0x4088 || 0x4090 <= reg <= 0x40AC
            || reg == 0x40C4 || 0x4100 <= reg <= 0x412C
            ==> Contains(Run(TaskWords(d)), (0x1001, reg), 0)
  {
    hide Run, TaskWords, Total, Contains, Mask, Word;
    TotalUnfolds();
    SlotTotal(76, d);
    SlotTotal(78, d);
    SlotTotal(79, d);
    SlotTotal(81, d);
    SlotTotal(91, d);
    if 0x4090 <= reg <= 0x40AC { SlotTotal(82 + (reg - 0x4090) / 4, d); }
    if 0x4100 <= reg <= 0x412C { SlotTotal(92 + (reg - 0x4100) / 4, d); }
  }
}
