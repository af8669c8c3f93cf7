/** The command list that the encoder emits, as data: for every slot the operation, the register and
    the fields (value, width, shift) that make up the register value. */
module Commands {
  import opened Bits
  import opened NpuHw
  import opened Descriptors

  datatype Command = Command(op: int, reg: int, fields: seq<Field>)

  const REGISTER_WRITES := 104
  const TASK_LENGTH := 108

  function CommandAt(i: nat, d: Descriptors): Command
    requires i < TASK_LENGTH
  {
    if i <= 12 then ConvolutionCommand(i, d.cna)
    else if i <= 27 then InputCommand(i, d.cna)
    else if i <= 48 then DecompressionCommand(i, d.cna)
    else if i <= 53 then CoreCommand(i, d.core)
    else if i <= 70 then OutputCommand(i, d.dpu)
    else if i <= 91 then ElementwiseCommand(i, d.dpu)
    else if i <= 103 then Command(OP_REG_DPU, DPU_LUT_ACCESS_CFG + 4 * (i - 92), [])
    else EnableCommand(i)
  }

  /** Convolution mode, tensor and weight sizes, CBUF banks. */
  function ConvolutionCommand(i: nat, cna: CnaDesc): Command
    requires 0 <= i <= 12
  {
    match i
    case 0 => Command(OP_REG_DPU, DPU_S_POINTER, [Field(0xE, 4, 0)])
    case 1 =>
      Command(OP_REG_CNA, CNA_CONV_CON1, [Field(cna.procPrecision, 3, 7), Field(cna.inPrecision, 3, 4),
          Field(cna.convMode, 4, 0)])
    case 2 => Command(OP_REG_CNA, CNA_CONV_CON2, [Field(cna.kernelGroups, 8, 16), Field(cna.featureGrains, 10, 4)])
    case 3 => Command(OP_REG_CNA, CNA_CONV_CON3, [Field(cna.convYStride, 3, 3), Field(cna.convXStride, 3, 0)])
    case 4 => Command(OP_REG_CNA, CNA_DATA_SIZE0, [Field(cna.datainWidth, 11, 16), Field(cna.datainHeight, 11, 0)])
    case 5 =>
      Command(OP_REG_CNA, CNA_DATA_SIZE1, [Field(cna.datainChannel - 1, 16, 16), Field(cna.datainChannel, 16, 0)])
    case 6 => Command(OP_REG_CNA, CNA_DATA_SIZE2, [Field(cna.dataoutWidth, 11, 0)])
    case 7 => Command(OP_REG_CNA, CNA_DATA_SIZE3, [Field(cna.dataoutAtomics, 18, 0)])
    case 8 => Command(OP_REG_CNA, CNA_WEIGHT_SIZE0, [Field(cna.weightBytes, 32, 0)])
    case 9 => Command(OP_REG_CNA, CNA_WEIGHT_SIZE1, [Field(cna.weightBytesPerKernel, 19, 0)])
    case 10 =>
      Command(OP_REG_CNA, CNA_WEIGHT_SIZE2, [Field(cna.weightWidth, 5, 24), Field(cna.weightHeight, 5, 16),
          Field(cna.weightKernels, 14, 0)])
    case 11 => Command(OP_REG_CNA, CNA_CBUF_CON0, [Field(cna.weightBank, 4, 4), Field(cna.dataBank, 4, 0)])
    case _ => Command(OP_REG_CNA, CNA_CBUF_CON1, [Field(cna.dataEntries, 13, 0)])
  }

  /** Input conversion, padding, addresses and DMA. */
  function InputCommand(i: nat, cna: CnaDesc): Command
    requires 13 <= i <= 27
  {
    match i
    case 13 =>
      Command(OP_REG_CNA, CNA_CVT_CON0, [Field(cna.dataSign, 1, 3), Field(cna.cvtType, 1, 1),
          Field(cna.cvtBypass, 1, 0)])
    case 14 => Command(OP_REG_CNA, CNA_CVT_CON1, [Field(cna.cvtScale0, 16, 16)])
    case 15 => Command(OP_REG_CNA, CNA_CVT_CON2, [Field(cna.cvtScale1, 16, 16)])
    case 16 => Command(OP_REG_CNA, CNA_CVT_CON3, [Field(cna.cvtScale2, 16, 16)])
    case 17 => Command(OP_REG_CNA, CNA_CVT_CON4, [Field(cna.cvtScale3, 16, 16)])
    case 18 => Command(OP_REG_CNA, CNA_FC_CON0, [Field(cna.fcSkipEn, 1, 0)])
    case 19 => Command(OP_REG_CNA, CNA_FC_CON1, [Field(cna.dataOffset, 17, 0)])
    case 20 => Command(OP_REG_CNA, CNA_PAD_CON0, [Field(cna.padLeft, 4, 4), Field(cna.padTop, 4, 0)])
    case 21 => Command(OP_REG_CNA, CNA_FEATURE_DATA_ADDR, [Field(cna.featureBaseAddr, 32, 0)])
    case 22 => Command(OP_REG_CNA, CNA_FC_CON2, [Field(cna.weightOffset, 17, 0)])
    case 23 => Command(OP_REG_CNA, CNA_DMA_CON0, [Field(cna.weightBurstLen, 4, 16), Field(cna.dataBurstLen, 4, 0)])
    case 24 => Command(OP_REG_CNA, CNA_DMA_CON1, [Field(cna.lineStride, 28, 0)])
    case 25 => Command(OP_REG_CNA, CNA_DMA_CON2, [Field(cna.surfStride, 28, 0)])
    case 26 => Command(OP_REG_CNA, CNA_FC_DATA_SIZE0, [Field(cna.dmaWidth, 11, 16), Field(cna.dmaHeight, 11, 0)])
    case _ => Command(OP_REG_CNA, CNA_FC_DATA_SIZE1, [Field(cna.dmaChannel, 16, 0)])
  }

  /** Weight decompression: one address, sixteen zero amounts. */
  function DecompressionCommand(i: nat, cna: CnaDesc): Command
    requires 28 <= i <= 48
  {
    match i
    case 28 => Command(OP_REG_CNA, CNA_DCOMP_CTRL, [])
    case 29 => Command(OP_REG_CNA, CNA_DCOMP_REGNUM, [])
    case 30 => Command(OP_REG_CNA, CNA_DCOMP_ADDR0, [Field(cna.decompressAddr0, 32, 0)])
    case 47 => Command(OP_REG_CNA, CNA_CVT_CON5, [])
    case 48 => Command(OP_REG_CNA, CNA_PAD_CON1, [])
    case _ => Command(OP_REG_CNA, CNA_DCOMP_AMOUNT + 4 * (i - 31), [])
  }

  /** Accumulation core. */
  function CoreCommand(i: nat, core: CoreDesc): Command
    requires 49 <= i <= 53
  {
    match i
    case 49 => Command(OP_REG_CORE, CORE_MISC_CFG, [Field(core.procPrecision, 3, 8), Field(core.qdEn, 1, 0)])
    case 50 =>
      Command(OP_REG_CORE, CORE_DATAOUT_SIZE_0, [Field(core.dataoutHeight, 16, 16), Field(core.dataoutWidth, 16, 0)])
    case 51 => Command(OP_REG_CORE, CORE_DATAOUT_SIZE_1, [Field(core.dataoutChannel, 16, 0)])
    case 52 => Command(OP_REG_CORE, CORE_CLIP_TRUNCATE, [])
    case _ => Command(OP_REG_CORE, CORE_3030, [])
  }

  /** Output cube, bias stage and write DMA. */
  function OutputCommand(i: nat, dpu: DpuDesc): Command
    requires 54 <= i <= 70
  {
    match i
    case 54 =>
      Command(OP_REG_DPU, DPU_FEATURE_MODE_CFG, [Field(dpu.burstLen, 4, 5), Field(dpu.convMode, 2, 3),
          Field(dpu.outputMode, 2, 1), Field(dpu.flyingMode, 1, 0)])
    case 55 =>
      Command(OP_REG_DPU, DPU_DATA_FORMAT, [Field(dpu.outPrecision, 3, 29), Field(dpu.inPrecision, 3, 26),
          Field(dpu.procPrecision, 3, 0)])
    case 56 => Command(OP_REG_DPU, DPU_OFFSET_PEND, [])
    case 57 => Command(OP_REG_DPU, DPU_DST_BASE_ADD, [Field(dpu.dstBaseAddr, 32, 0)])
    case 58 => Command(OP_REG_DPU, DPU_DST_SURF_STRIDE, [Field(dpu.dstSurfStride, 28, 4)])
    case 59 => Command(OP_REG_DPU, DPU_DATA_CUBE_WIDTH, [Field(dpu.width, 13, 0)])
    case 60 => Command(OP_REG_DPU, DPU_DATA_CUBE_HEIGHT, [Field(dpu.height, 13, 0)])
    case 61 => Command(OP_REG_DPU, DPU_DATA_CUBE_NOTCH_ADDR, [])
    case 62 => Command(OP_REG_DPU, DPU_DATA_CUBE_CHANNEL, [Field(dpu.channel, 13, 16), Field(dpu.channel, 13, 0)])
    case 63 =>
      Command(OP_REG_DPU, DPU_BS_CFG, [Field(dpu.bsReluBypass, 1, 6), Field(dpu.bsMulBypass, 1, 4),
          Field(dpu.bsAluBypass, 1, 1), Field(dpu.bsBypass, 1, 0)])
    case 64 => Command(OP_REG_DPU, DPU_BS_ALU_CFG, [])
    case 65 => Command(OP_REG_DPU, DPU_BS_MUL_CFG, [])
    case 66 => Command(OP_REG_DPU, DPU_BS_RELUX_CMP_VALUE, [])
    case 67 =>
      Command(OP_REG_DPU, DPU_BS_OW_CFG, [Field(dpu.sizeE2, 3, 8), Field(dpu.sizeE1, 3, 5),
          Field(dpu.sizeE0, 3, 2), Field(dpu.odBypass, 1, 1)])
    case 68 => Command(OP_REG_DPU, DPU_BS_OW_OP, [])
    case 69 => Command(OP_REG_DPU, DPU_WDMA_SIZE_0, [Field(dpu.channelWdma, 13, 0)])
    case _ => Command(OP_REG_DPU, DPU_WDMA_SIZE_1, [Field(dpu.heightWdma, 13, 16), Field(dpu.widthWdma, 13, 0)])
  }

  /** Batch-norm and elementwise stages, output conversion. */
  function ElementwiseCommand(i: nat, dpu: DpuDesc): Command
    requires 71 <= i <= 91
  {
    match i
    case 71 =>
      Command(OP_REG_DPU, DPU_BN_CFG, [Field(dpu.bnReluBypass, 1, 6), Field(dpu.bnMulBypass, 1, 4),
          Field(dpu.bnAluBypass, 1, 1), Field(dpu.bnBypass, 1, 0)])
    case 72 => Command(OP_REG_DPU, DPU_BN_ALU_CFG, [])
    case 73 => Command(OP_REG_DPU, DPU_BN_MUL_CFG, [])
    case 74 => Command(OP_REG_DPU, DPU_BN_RELUX_CMP_VALUE, [])
    case 75 =>
      Command(OP_REG_DPU, DPU_EW_CFG, [Field(dpu.ewReluBypass, 1, 9), Field(dpu.ewOpCvtBypass, 1, 8),
          Field(dpu.ewLutBypass, 1, 7), Field(dpu.ewOpBypass, 1, 1), Field(dpu.ewBypass, 1, 0)])
    case 76 => Command(OP_REG_DPU, DPU_EW_CVT_OFFSET_VALUE, [])
    case 77 => Command(OP_REG_DPU, DPU_EW_CVT_SCALE_VALUE, [Field(0x1, 1, 0)])
    case 78 => Command(OP_REG_DPU, DPU_EW_RELUX_CMP_VALUE, [])
    case 79 => Command(OP_REG_DPU, DPU_OUT_CVT_OFFSET, [])
    case 80 => Command(OP_REG_DPU, DPU_OUT_CVT_SCALE, [Field(dpu.fp32tofp16En, 1, 16), Field(dpu.outCvtScale, 16, 0)])
    case 81 => Command(OP_REG_DPU, DPU_OUT_CVT_SHIFT, [])
    case 90 => Command(OP_REG_DPU, DPU_SURFACE_ADD, [Field(dpu.surfAdd, 28, 4)])
    case 91 => Command(OP_REG_DPU, DPU_40C4, [])
    case _ => Command(OP_REG_DPU, DPU_EW_OP_VALUE_0 + 4 * (i - 82), [])
  }

  /** The four trailing commands, which start the task. */
  function EnableCommand(i: nat): Command
    requires 104 <= i <= 107
  {
    match i
    case 104 => Command(OP_NONE, 0x0, [])
    case 105 => Command(OP_REG_PC, PC_REGISTER_AMOUNTS, [])
    case 106 => Command(OP_40, 0x0, [])
    case _ => Command(OP_ENABLE, PC_OPERATION_ENABLE, [Field(0xD, 4, 0)])
  }

  /** NPUOP: operation, value and register in 16, 32 and 16 bits of a 64-bit word. */
  function NpuOp(op: int, value: int, reg: int): nat {
    Or(Or(Shl(And(op, 0xFFFF), 48), Shl(And(value, 0xFFFFFFFF), 16)), And(reg, 0xFFFF))
  }

  function Word(c: Command): nat {
    NpuOp(c.op, Pack(c.fields), c.reg)
  }
}
