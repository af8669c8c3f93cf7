/** gen_matmul_task: encodes the three descriptors as register commands.

    The C function is one straight line of assignments; here it is cut into the runs of slots that
    configure one part of the hardware, called in order. */
module Encoder {
  import opened Bits
  import opened NpuHw
  import opened Descriptors
  import opened Commands
  import opened RegisterFile

  /** The three literal values. */
  lemma LiteralFields()
    ensures Put(Field(0xE, 4, 0)) == 0xE && Put(Field(0x1, 1, 0)) == 0x1
    ensures Or(Or(PC_ENABLE_DPU, PC_ENABLE_CNA), PC_ENABLE) == Put(Field(0xD, 4, 0))
  {
    MaskKeeps(0xE, 4);
    MaskKeeps(0x1, 1);
    MaskKeeps(0xD, 4);
  }

  /** The four trailing words: a separator, the register amount, the operation 0x41 and the start. */
  lemma TailWords(d: Descriptors)
    ensures Word(CommandAt(104, d)) == 0 && Word(CommandAt(105, d)) == 0x0101_0000_0000_0014
    ensures Word(CommandAt(106, d)) == 0x0041_0000_0000_0000 && Word(CommandAt(107, d)) == 0x0081_0000_000D_0008
  {
    hide NpuOp, Pack, Put, Mask, Or, And, Shl, CommandAt;
    TailCommands(d);
    PackUnfolds();
    StartValue();
    NpuOpIsNumber(0, 0, 0);
    NpuOpIsNumber(0x0101, 0, 0x14);
    NpuOpIsNumber(0x0041, 0, 0);
    NpuOpIsNumber(0x0081, 0xD, 0x8);
  }

  lemma TailCommands(d: Descriptors)
    ensures CommandAt(104, d) == Command(0, 0, []) && CommandAt(105, d) == Command(0x0101, 0x14, [])
    ensures CommandAt(106, d) == Command(0x0041, 0, [])
    ensures CommandAt(107, d) == Command(0x0081, 0x8, [Field(0xD, 4, 0)])
  {
  }

  lemma StartValue()
    ensures Put(Field(0xD, 4, 0)) == 0xD
  {
    MaskKeeps(0xD, 4);
  }

  predicate Encoded(ops: array<nat>, d: Descriptors, from: int, to: int)
    requires 0 <= from && to <= TASK_LENGTH <= ops.Length
    reads ops
  {
    forall i :: from <= i < to ==> ops[i] == Word(CommandAt(i, d))
  }

  method EncodeConvolution(ops: array<nat>, d: Descriptors)
    requires ops.Length >= TASK_LENGTH
    modifies ops
    ensures Encoded(ops, d, 0, 7)
    ensures forall i :: 0 <= i < ops.Length && !(0 <= i < 7) ==> ops[i] == old(ops[i])
  {
    var value: nat;
    var cna := d.cna;
    hide NpuOp, And, Or, Shl, Mask, Pack;
    MaskValues();
    PackUnfolds();
    LiteralFields();
    ops[0] := NpuOp(OP_REG_DPU, 0xE, DPU_S_POINTER);
    value := Or(Or(Shl(And(cna.procPrecision, 0x7), 7), Shl(And(cna.inPrecision, 0x7), 4)), And(cna.convMode, 0xf));
    ops[1] := NpuOp(OP_REG_CNA, value, CNA_CONV_CON1);
    value := Or(Shl(And(cna.kernelGroups, 0xFF), 16), Shl(And(cna.featureGrains, 0x3FF), 4));
    ops[2] := NpuOp(OP_REG_CNA, value, CNA_CONV_CON2);
    value := Or(Shl(And(cna.convYStride, 0x7), 3), And(cna.convXStride, 0x7));
    ops[3] := NpuOp(OP_REG_CNA, value, CNA_CONV_CON3);
    value := Or(Shl(And(cna.datainWidth, 0x7FF), 16), And(cna.datainHeight, 0x7FF));
    ops[4] := NpuOp(OP_REG_CNA, value, CNA_DATA_SIZE0);
    value := Or(Shl(And(cna.datainChannel - 1, 0xFFFF), 16), And(cna.datainChannel, 0xFFFF));
    ops[5] := NpuOp(OP_REG_CNA, value, CNA_DATA_SIZE1);
    value := And(cna.dataoutWidth, 0x7FF);
    ops[6] := NpuOp(OP_REG_CNA, value, CNA_DATA_SIZE2);
  }

  method EncodeWeightsAndBanks(ops: array<nat>, d: Descriptors)
    requires ops.Length >= TASK_LENGTH
    modifies ops
    ensures Encoded(ops, d, 7, 13)
    ensures forall i :: 0 <= i < ops.Length && !(7 <= i < 13) ==> ops[i] == old(ops[i])
  {
    var value: nat;
    var cna := d.cna;
    hide NpuOp, And, Or, Shl, Mask, Pack;
    MaskValues();
    PackUnfolds();
    value := And(cna.dataoutAtomics, 0x3FFFF);
    ops[7] := NpuOp(OP_REG_CNA, value, CNA_DATA_SIZE3);
    MaskKeeps(cna.weightBytes, 32);
    value := cna.weightBytes;
    ops[8] := NpuOp(OP_REG_CNA, value, CNA_WEIGHT_SIZE0);
    value := And(cna.weightBytesPerKernel, 0x7FFFF);
    ops[9] := NpuOp(OP_REG_CNA, value, CNA_WEIGHT_SIZE1);
    value := Or(Or(Shl(And(cna.weightWidth, 0x1F), 24), Shl(And(cna.weightHeight, 0x1F), 16)),
        And(cna.weightKernels, 0x3FFF));
    ops[10] := NpuOp(OP_REG_CNA, value, CNA_WEIGHT_SIZE2);
    value := Or(Shl(And(cna.weightBank, 0xF), 4), And(cna.dataBank, 0xF));
    ops[11] := NpuOp(OP_REG_CNA, value, CNA_CBUF_CON0);
    value := And(cna.dataEntries, 0x1FFF);
    ops[12] := NpuOp(OP_REG_CNA, value, CNA_CBUF_CON1);
  }

  method EncodeInputConversion(ops: array<nat>, d: Descriptors)
    requires ops.Length >= TASK_LENGTH
    modifies ops
    ensures Encoded(ops, d, 13, 21)
    ensures forall i :: 0 <= i < ops.Length && !(13 <= i < 21) ==> ops[i] == old(ops[i])
  {
    var value: nat;
    var cna := d.cna;
    hide NpuOp, And, Or, Shl, Mask, Pack;
    MaskValues();
    PackUnfolds();
    value := Or(Or(Shl(And(cna.dataSign, 0x1), 3), Shl(And(cna.cvtType, 0x1), 1)), And(cna.cvtBypass, 0x1));
    ops[13] := NpuOp(OP_REG_CNA, value, CNA_CVT_CON0);
    OrZero(Shl(And(cna.cvtScale0, 0xFFFF), 16));
    value := Or(Shl(And(cna.cvtScale0, 0xFFFF), 16), 0x0);
    ops[14] := NpuOp(OP_REG_CNA, value, CNA_CVT_CON1);
    OrZero(Shl(And(cna.cvtScale1, 0xFFFF), 16));
    value := Or(Shl(And(cna.cvtScale1, 0xFFFF), 16), 0x0);
    ops[15] := NpuOp(OP_REG_CNA, value, CNA_CVT_CON2);
    OrZero(Shl(And(cna.cvtScale2, 0xFFFF), 16));
    value := Or(Shl(And(cna.cvtScale2, 0xFFFF), 16), 0x0);
    ops[16] := NpuOp(OP_REG_CNA, value, CNA_CVT_CON3);
    OrZero(Shl(And(cna.cvtScale3, 0xFFFF), 16));
    value := Or(Shl(And(cna.cvtScale3, 0xFFFF), 16), 0x0);
    ops[17] := NpuOp(OP_REG_CNA, value, CNA_CVT_CON4);
    value := And(cna.fcSkipEn, 0x1);
    ops[18] := NpuOp(OP_REG_CNA, value, CNA_FC_CON0);
    value := And(cna.dataOffset, 0x1FFFF);
    ops[19] := NpuOp(OP_REG_CNA, value, CNA_FC_CON1);
    value := Or(Shl(And(cna.padLeft, 0xF), 4), And(cna.padTop, 0xF));
    ops[20] := NpuOp(OP_REG_CNA, value, CNA_PAD_CON0);
  }

  method EncodeDma(ops: array<nat>, d: Descriptors)
    requires ops.Length >= TASK_LENGTH
    modifies ops
    ensures Encoded(ops, d, 21, 28)
    ensures forall i :: 0 <= i < ops.Length && !(21 <= i < 28) ==> ops[i] == old(ops[i])
  {
    var value: nat;
    var cna := d.cna;
    hide NpuOp, And, Or, Shl, Mask, Pack;
    MaskValues();
    PackUnfolds();
    MaskKeeps(cna.featureBaseAddr, 32);
    ops[21] := NpuOp(OP_REG_CNA, cna.featureBaseAddr, CNA_FEATURE_DATA_ADDR);
    value := And(cna.weightOffset, 0x1FFFF);
    ops[22] := NpuOp(OP_REG_CNA, value, CNA_FC_CON2);
    value := Or(Shl(And(cna.weightBurstLen, 0xF), 16), And(cna.dataBurstLen, 0xF));
    ops[23] := NpuOp(OP_REG_CNA, value, CNA_DMA_CON0);
    value := And(cna.lineStride, 0xFFFFFFF);
    ops[24] := NpuOp(OP_REG_CNA, value, CNA_DMA_CON1);
    value := And(cna.surfStride, 0xFFFFFFF);
    ops[25] := NpuOp(OP_REG_CNA, value, CNA_DMA_CON2);
    value := Or(Shl(And(cna.dmaWidth, 0x7FF), 16), And(cna.dmaHeight, 0x7FF));
    ops[26] := NpuOp(OP_REG_CNA, value, CNA_FC_DATA_SIZE0);
    value := And(cna.dmaChannel, 0xFFFF);
    ops[27] := NpuOp(OP_REG_CNA, value, CNA_FC_DATA_SIZE1);
  }

  method EncodeDecompression(ops: array<nat>, d: Descriptors)
    requires ops.Length >= TASK_LENGTH
    modifies ops
    ensures Encoded(ops, d, 28, 35)
    ensures forall i :: 0 <= i < ops.Length && !(28 <= i < 35) ==> ops[i] == old(ops[i])
  {
    var cna := d.cna;
    hide NpuOp, And, Or, Shl, Mask, Pack;
    MaskValues();
    PackUnfolds();
    ops[28] := NpuOp(OP_REG_CNA, 0x0, CNA_DCOMP_CTRL);
    ops[29] := NpuOp(OP_REG_CNA, 0x0, CNA_DCOMP_REGNUM);
    MaskKeeps(cna.decompressAddr0, 32);
    ops[30] := NpuOp(OP_REG_CNA, cna.decompressAddr0, CNA_DCOMP_ADDR0);
    ops[31] := NpuOp(OP_REG_CNA, 0x0, CNA_DCOMP_AMOUNT);
    ops[32] := NpuOp(OP_REG_CNA, 0x0, CNA_DCOMP_AMOUNT1);
    ops[33] := NpuOp(OP_REG_CNA, 0x0, CNA_DCOMP_AMOUNT2);
    ops[34] := NpuOp(OP_REG_CNA, 0x0, CNA_DCOMP_AMOUNT3);
  }

  method EncodeAmounts(ops: array<nat>, d: Descriptors)
    requires ops.Length >= TASK_LENGTH
    modifies ops
    ensures Encoded(ops, d, 35, 42)
    ensures forall i :: 0 <= i < ops.Length && !(35 <= i < 42) ==> ops[i] == old(ops[i])
  {
    hide NpuOp, And, Or, Shl, Mask, Pack;
    MaskValues();
    PackUnfolds();
    ops[35] := NpuOp(OP_REG_CNA, 0x0, CNA_DCOMP_AMOUNT4);
    ops[36] := NpuOp(OP_REG_CNA, 0x0, CNA_DCOMP_AMOUNT5);
    ops[37] := NpuOp(OP_REG_CNA, 0x0, CNA_DCOMP_AMOUNT6);
    ops[38] := NpuOp(OP_REG_CNA, 0x0, CNA_DCOMP_AMOUNT7);
    ops[39] := NpuOp(OP_REG_CNA, 0x0, CNA_DCOMP_AMOUNT8);
    ops[40] := NpuOp(OP_REG_CNA, 0x0, CNA_DCOMP_AMOUNT9);
    ops[41] := NpuOp(OP_REG_CNA, 0x0, CNA_DCOMP_AMOUNT10);
  }

  method EncodeAmountsAndPad(ops: array<nat>, d: Descriptors)
    requires ops.Length >= TASK_LENGTH
    modifies ops
    ensures Encoded(ops, d, 42, 49)
    ensures forall i :: 0 <= i < ops.Length && !(42 <= i < 49) ==> ops[i] == old(ops[i])
  {
    hide NpuOp, And, Or, Shl, Mask, Pack;
    MaskValues();
    PackUnfolds();
    ops[42] := NpuOp(OP_REG_CNA, 0x0, CNA_DCOMP_AMOUNT11);
    ops[43] := NpuOp(OP_REG_CNA, 0x0, CNA_DCOMP_AMOUNT12);
    ops[44] := NpuOp(OP_REG_CNA, 0x0, CNA_DCOMP_AMOUNT13);
    ops[45] := NpuOp(OP_REG_CNA, 0x0, CNA_DCOMP_AMOUNT14);
    ops[46] := NpuOp(OP_REG_CNA, 0x0, CNA_DCOMP_AMOUNT15);
    ops[47] := NpuOp(OP_REG_CNA, 0x0, CNA_CVT_CON5);
    ops[48] := NpuOp(OP_REG_CNA, 0x0, CNA_PAD_CON1);
  }

  method EncodeCore(ops: array<nat>, d: Descriptors)
    requires ops.Length >= TASK_LENGTH
    modifies ops
    ensures Encoded(ops, d, 49, 52)
    ensures forall i :: 0 <= i < ops.Length && !(49 <= i < 52) ==> ops[i] == old(ops[i])
  {
    var value: nat;
    var core := d.core;
    hide NpuOp, And, Or, Shl, Mask, Pack;
    MaskValues();
    PackUnfolds();
    value := Or(Shl(And(core.procPrecision, 0x7), 8), And(core.qdEn, 0x1));
    ops[49] := NpuOp(OP_REG_CORE, value, CORE_MISC_CFG);
    value := Or(Shl(And(core.dataoutHeight, 0xFFFF), 16), And(core.dataoutWidth, 0xFFFF));
    ops[50] := NpuOp(OP_REG_CORE, value, CORE_DATAOUT_SIZE_0);
    value := And(core.dataoutChannel, 0xFFFF);
    ops[51] := NpuOp(OP_REG_CORE, value, CORE_DATAOUT_SIZE_1);
  }

  method EncodeCoreTail(ops: array<nat>, d: Descriptors)
    requires ops.Length >= TASK_LENGTH
    modifies ops
    ensures Encoded(ops, d, 52, 54)
    ensures forall i :: 0 <= i < ops.Length && !(52 <= i < 54) ==> ops[i] == old(ops[i])
  {
    hide NpuOp, And, Or, Shl, Mask, Pack;
    MaskValues();
    PackUnfolds();
    ops[52] := NpuOp(OP_REG_CORE, 0x0, CORE_CLIP_TRUNCATE);
    ops[53] := NpuOp(OP_REG_CORE, 0x0, CORE_3030);
  }

  method EncodeOutputMode(ops: array<nat>, d: Descriptors)
    requires ops.Length >= TASK_LENGTH
    modifies ops
    ensures Encoded(ops, d, 54, 59)
    ensures forall i :: 0 <= i < ops.Length && !(54 <= i < 59) ==> ops[i] == old(ops[i])
  {
    var value: nat;
    var dpu := d.dpu;
    hide NpuOp, And, Or, Shl, Mask, Pack;
    MaskValues();
    PackUnfolds();
    value := Or(Or(Or(Shl(And(dpu.burstLen, 0xF), 5), Shl(And(dpu.convMode, 0x3), 3)),
        Shl(And(dpu.outputMode, 0x3), 1)), And(dpu.flyingMode, 0x1));
    ops[54] := NpuOp(OP_REG_DPU, value, DPU_FEATURE_MODE_CFG);
    value := Or(Or(Shl(And(dpu.outPrecision, 0x7), 29), Shl(And(dpu.inPrecision, 0x7), 26)),
        And(dpu.procPrecision, 0x7));
    ops[55] := NpuOp(OP_REG_DPU, value, DPU_DATA_FORMAT);
    ops[56] := NpuOp(OP_REG_DPU, 0x0, DPU_OFFSET_PEND);
    MaskKeeps(dpu.dstBaseAddr, 32);
    ops[57] := NpuOp(OP_REG_DPU, dpu.dstBaseAddr, DPU_DST_BASE_ADD);
    value := Shl(And(dpu.dstSurfStride, 0xFFFFFFF), 4);
    ops[58] := NpuOp(OP_REG_DPU, value, DPU_DST_SURF_STRIDE);
  }

  method EncodeOutputCube(ops: array<nat>, d: Descriptors)
    requires ops.Length >= TASK_LENGTH
    modifies ops
    ensures Encoded(ops, d, 59, 63)
    ensures forall i :: 0 <= i < ops.Length && !(59 <= i < 63) ==> ops[i] == old(ops[i])
  {
    var value: nat;
    var dpu := d.dpu;
    hide NpuOp, And, Or, Shl, Mask, Pack;
    MaskValues();
    PackUnfolds();
    value := And(dpu.width, 0x1FFF);
    ops[59] := NpuOp(OP_REG_DPU, value, DPU_DATA_CUBE_WIDTH);
    value := And(dpu.height, 0x1FFF);
    ops[60] := NpuOp(OP_REG_DPU, value, DPU_DATA_CUBE_HEIGHT);
    ops[61] := NpuOp(OP_REG_DPU, 0x0, DPU_DATA_CUBE_NOTCH_ADDR);
    value := Or(Shl(And(dpu.channel, 0x1FFF), 16), And(dpu.channel, 0x1FFF));
    ops[62] := NpuOp(OP_REG_DPU, value, DPU_DATA_CUBE_CHANNEL);
  }

  method EncodeBias(ops: array<nat>, d: Descriptors)
    requires ops.Length >= TASK_LENGTH
    modifies ops
    ensures Encoded(ops, d, 63, 67)
    ensures forall i :: 0 <= i < ops.Length && !(63 <= i < 67) ==> ops[i] == old(ops[i])
  {
    var value: nat;
    var dpu := d.dpu;
    hide NpuOp, And, Or, Shl, Mask, Pack;
    MaskValues();
    PackUnfolds();
    value := Or(Or(Or(Shl(And(dpu.bsReluBypass, 0x1), 6), Shl(And(dpu.bsMulBypass, 0x1), 4)),
        Shl(And(dpu.bsAluBypass, 0x1), 1)), And(dpu.bsBypass, 0x1));
    ops[63] := NpuOp(OP_REG_DPU, value, DPU_BS_CFG);
    ops[64] := NpuOp(OP_REG_DPU, 0x0, DPU_BS_ALU_CFG);
    ops[65] := NpuOp(OP_REG_DPU, 0x0, DPU_BS_MUL_CFG);
    ops[66] := NpuOp(OP_REG_DPU, 0x0, DPU_BS_RELUX_CMP_VALUE);
  }

  method EncodeWriteDma(ops: array<nat>, d: Descriptors)
    requires ops.Length >= TASK_LENGTH
    modifies ops
    ensures Encoded(ops, d, 67, 71)
    ensures forall i :: 0 <= i < ops.Length && !(67 <= i < 71) ==> ops[i] == old(ops[i])
  {
    var value: nat;
    var dpu := d.dpu;
    hide NpuOp, And, Or, Shl, Mask, Pack;
    MaskValues();
    PackUnfolds();
    value := Or(Or(Or(Shl(And(dpu.sizeE2, 0x7), 8), Shl(And(dpu.sizeE1, 0x7), 5)),
        Shl(And(dpu.sizeE0, 0x7), 2)), Shl(And(dpu.odBypass, 0x1), 1));
    ops[67] := NpuOp(OP_REG_DPU, value, DPU_BS_OW_CFG);
    ops[68] := NpuOp(OP_REG_DPU, 0x0, DPU_BS_OW_OP);
    value := And(dpu.channelWdma, 0x1FFF);
    ops[69] := NpuOp(OP_REG_DPU, value, DPU_WDMA_SIZE_0);
    value := Or(Shl(And(dpu.heightWdma, 0x1FFF), 16), And(dpu.widthWdma, 0x1FFF));
    ops[70] := NpuOp(OP_REG_DPU, value, DPU_WDMA_SIZE_1);
  }

  method EncodeBatchNormAndElementwise(ops: array<nat>, d: Descriptors)
    requires ops.Length >= TASK_LENGTH
    modifies ops
    ensures Encoded(ops, d, 71, 77)
    ensures forall i :: 0 <= i < ops.Length && !(71 <= i < 77) ==> ops[i] == old(ops[i])
  {
    var value: nat;
    var dpu := d.dpu;
    hide NpuOp, And, Or, Shl, Mask, Pack;
    MaskValues();
    PackUnfolds();
    value := Or(Or(Or(Shl(And(dpu.bnReluBypass, 0x1), 6), Shl(And(dpu.bnMulBypass, 0x1), 4)),
        Shl(And(dpu.bnAluBypass, 0x1), 1)), And(dpu.bnBypass, 0x1));
    ops[71] := NpuOp(OP_REG_DPU, value, DPU_BN_CFG);
    ops[72] := NpuOp(OP_REG_DPU, 0x0, DPU_BN_ALU_CFG);
    ops[73] := NpuOp(OP_REG_DPU, 0x0, DPU_BN_MUL_CFG);
    ops[74] := NpuOp(OP_REG_DPU, 0x0, DPU_BN_RELUX_CMP_VALUE);
    value := Or(Or(Or(Or(Shl(And(dpu.ewReluBypass, 0x1), 9), Shl(And(dpu.ewOpCvtBypass, 0x1), 8)),
        Shl(And(dpu.ewLutBypass, 0x1), 7)), Shl(And(dpu.ewOpBypass, 0x1), 1)), And(dpu.ewBypass, 0x1));
    ops[75] := NpuOp(OP_REG_DPU, value, DPU_EW_CFG);
    ops[76] := NpuOp(OP_REG_DPU, 0x0, DPU_EW_CVT_OFFSET_VALUE);
  }

  method EncodeOutputConversion(ops: array<nat>, d: Descriptors)
    requires ops.Length >= TASK_LENGTH
    modifies ops
    ensures Encoded(ops, d, 77, 82)
    ensures forall i :: 0 <= i < ops.Length && !(77 <= i < 82) ==> ops[i] == old(ops[i])
  {
    var value: nat;
    var dpu := d.dpu;
    hide NpuOp, And, Or, Shl, Mask, Pack;
    MaskValues();
    PackUnfolds();
    LiteralFields();
    ops[77] := NpuOp(OP_REG_DPU, 0x1, DPU_EW_CVT_SCALE_VALUE);
    ops[78] := NpuOp(OP_REG_DPU, 0x0, DPU_EW_RELUX_CMP_VALUE);
    ops[79] := NpuOp(OP_REG_DPU, 0x0, DPU_OUT_CVT_OFFSET);
    value := Or(Shl(And(dpu.fp32tofp16En, 0x1), 16), And(dpu.outCvtScale, 0xFFFF));
    ops[80] := NpuOp(OP_REG_DPU, value, DPU_OUT_CVT_SCALE);
    ops[81] := NpuOp(OP_REG_DPU, 0x0, DPU_OUT_CVT_SHIFT);
  }

  method EncodeOperands(ops: array<nat>, d: Descriptors)
    requires ops.Length >= TASK_LENGTH
    modifies ops
    ensures Encoded(ops, d, 82, 90)
    ensures forall i :: 0 <= i < ops.Length && !(82 <= i < 90) ==> ops[i] == old(ops[i])
  {
    hide NpuOp, And, Or, Shl, Mask, Pack;
    MaskValues();
    PackUnfolds();
    ops[82] := NpuOp(OP_REG_DPU, 0x0, DPU_EW_OP_VALUE_0);
    ops[83] := NpuOp(OP_REG_DPU, 0x0, DPU_EW_OP_VALUE_1);
    ops[84] := NpuOp(OP_REG_DPU, 0x0, DPU_EW_OP_VALUE_2);
    ops[85] := NpuOp(OP_REG_DPU, 0x0, DPU_EW_OP_VALUE_3);
    ops[86] := NpuOp(OP_REG_DPU, 0x0, DPU_EW_OP_VALUE_4);
    ops[87] := NpuOp(OP_REG_DPU, 0x0, DPU_EW_OP_VALUE_5);
    ops[88] := NpuOp(OP_REG_DPU, 0x0, DPU_EW_OP_VALUE_6);
    ops[89] := NpuOp(OP_REG_DPU, 0x0, DPU_EW_OP_VALUE_7);
  }

  method EncodeSurfaceAdd(ops: array<nat>, d: Descriptors)
    requires ops.Length >= TASK_LENGTH
    modifies ops
    ensures Encoded(ops, d, 90, 92)
    ensures forall i :: 0 <= i < ops.Length && !(90 <= i < 92) ==> ops[i] == old(ops[i])
  {
    var value: nat;
    var dpu := d.dpu;
    hide NpuOp, And, Or, Shl, Mask, Pack;
    MaskValues();
    PackUnfolds();
    value := Shl(And(dpu.surfAdd, 0xFFFFFFF), 4);
    ops[90] := NpuOp(OP_REG_DPU, value, DPU_SURFACE_ADD);
    ops[91] := NpuOp(OP_REG_DPU, 0x0, DPU_40C4);
  }

  method EncodeLutLow(ops: array<nat>, d: Descriptors)
    requires ops.Length >= TASK_LENGTH
    modifies ops
    ensures Encoded(ops, d, 92, 98)
    ensures forall i :: 0 <= i < ops.Length && !(92 <= i < 98) ==> ops[i] == old(ops[i])
  {
    hide NpuOp, And, Or, Shl, Mask, Pack;
    MaskValues();
    PackUnfolds();
    ops[92] := NpuOp(OP_REG_DPU, 0x0, DPU_LUT_ACCESS_CFG);
    ops[93] := NpuOp(OP_REG_DPU, 0x0, DPU_LUT_ACCESS_DATA);
    ops[94] := NpuOp(OP_REG_DPU, 0x0, DPU_LUT_CFG);
    ops[95] := NpuOp(OP_REG_DPU, 0x0, DPU_LUT_INFO);
    ops[96] := NpuOp(OP_REG_DPU, 0x0, DPU_LUT_LE_START);
    ops[97] := NpuOp(OP_REG_DPU, 0x0, DPU_LUT_LE_END);
  }

  method EncodeLutHigh(ops: array<nat>, d: Descriptors)
    requires ops.Length >= TASK_LENGTH
    modifies ops
    ensures Encoded(ops, d, 98, 104)
    ensures forall i :: 0 <= i < ops.Length && !(98 <= i < 104) ==> ops[i] == old(ops[i])
  {
    hide NpuOp, And, Or, Shl, Mask, Pack;
    MaskValues();
    PackUnfolds();
    ops[98] := NpuOp(OP_REG_DPU, 0x0, DPU_LUT_LO_START);
    ops[99] := NpuOp(OP_REG_DPU, 0x0, DPU_LUT_LO_END);
    ops[100] := NpuOp(OP_REG_DPU, 0x0, DPU_LUT_LE_SLOPE_SCALE);
    ops[101] := NpuOp(OP_REG_DPU, 0x0, DPU_LUT_LE_SLOPE_SHIFT);
    ops[102] := NpuOp(OP_REG_DPU, 0x0, DPU_LUT_LO_SLOPE_SCALE);
    ops[103] := NpuOp(OP_REG_DPU, 0x0, DPU_LUT_LO_SLOPE_SHIFT);
  }

  method EncodeEnable(ops: array<nat>, d: Descriptors)
    requires ops.Length >= TASK_LENGTH
    modifies ops
    ensures Encoded(ops, d, 104, 108)
    ensures forall i :: 0 <= i < ops.Length && !(104 <= i < 108) ==> ops[i] == old(ops[i])
  {
    hide NpuOp, And, Or, Shl, Mask, Pack;
    MaskValues();
    PackUnfolds();
    ops[104] := NpuOp(OP_NONE, 0x0, 0x0);
    ops[105] := NpuOp(OP_REG_PC, 0x0, PC_REGISTER_AMOUNTS);
    ops[106] := NpuOp(OP_40, 0x0, 0x0);
    LiteralFields();
    ops[107] := NpuOp(OP_ENABLE, Or(Or(PC_ENABLE_DPU, PC_ENABLE_CNA), PC_ENABLE), PC_OPERATION_ENABLE);
  }

  method GenMatmulTask(ops: array<nat>, cna: CnaDesc, core: CoreDesc, dpu: DpuDesc)
    requires ops.Length >= TASK_LENGTH
    modifies ops
    ensures Encoded(ops, Descriptors(cna, core, dpu), 0, TASK_LENGTH)
    ensures ops[104] == 0 && ops[105] == 0x0101_0000_0000_0014
    ensures ops[106] == 0x0041_0000_0000_0000 && ops[107] == 0x0081_0000_000D_0008
    ensures forall i :: TASK_LENGTH <= i < ops.Length ==> ops[i] == old(ops[i])
  {
    hide Word, CommandAt;
    var d := Descriptors(cna, core, dpu);
    EncodeConvolution(ops, d);
    EncodeWeightsAndBanks(ops, d);
    EncodeInputConversion(ops, d);
    EncodeDma(ops, d);
    EncodeDecompression(ops, d);
    EncodeAmounts(ops, d);
    EncodeAmountsAndPad(ops, d);
    EncodeCore(ops, d);
    EncodeCoreTail(ops, d);
    EncodeOutputMode(ops, d);
    EncodeOutputCube(ops, d);
    EncodeBias(ops, d);
    EncodeWriteDma(ops, d);
    EncodeBatchNormAndElementwise(ops, d);
    EncodeOutputConversion(ops, d);
    EncodeOperands(ops, d);
    EncodeSurfaceAdd(ops, d);
    EncodeLutLow(ops, d);
    EncodeLutHigh(ops, d);
    EncodeEnable(ops, d);
    TailWords(d);
  }
}
