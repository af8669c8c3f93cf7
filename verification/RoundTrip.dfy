/** Decoding a task gives the descriptors back: the register file is read at the positions that the
    Mesa register description gives each field, and compared with what was encoded. */
module RoundTrip {
  import opened Bits
  import opened NpuHw
  import opened Descriptors
  import opened Commands
  import opened RegisterFile
  import opened Task

  /** A 28-bit two's-complement number. */
  function SignExtend28(x: nat): int {
    if x < 0x800_0000 then x else x - 0x1000_0000
  }

  predicate SizesRecovered(r: Registers, cna: CnaDesc) {
    && Read(r, OP_REG_CNA, CNA_CONV_CON1, 3, 7) == cna.procPrecision
    && Read(r, OP_REG_CNA, CNA_CONV_CON1, 3, 4) == cna.inPrecision
    && Read(r, OP_REG_CNA, CNA_CONV_CON1, 4, 0) == cna.convMode
    && Read(r, OP_REG_CNA, CNA_CONV_CON2, 8, 16) == cna.kernelGroups
    && Read(r, OP_REG_CNA, CNA_CONV_CON2, 10, 4) == cna.featureGrains
    && Read(r, OP_REG_CNA, CNA_CONV_CON3, 3, 3) == cna.convYStride
    && Read(r, OP_REG_CNA, CNA_CONV_CON3, 3, 0) == cna.convXStride
    && Read(r, OP_REG_CNA, CNA_DATA_SIZE0, 11, 16) == cna.datainWidth
    && Read(r, OP_REG_CNA, CNA_DATA_SIZE0, 11, 0) == cna.datainHeight
    && Read(r, OP_REG_CNA, CNA_DATA_SIZE1, 14, 16) == cna.datainChannel - 1
    && Read(r, OP_REG_CNA, CNA_DATA_SIZE1, 16, 0) == cna.datainChannel
    && Read(r, OP_REG_CNA, CNA_DATA_SIZE2, 11, 0) == cna.dataoutWidth
  }

  predicate WeightsRecovered(r: Registers, cna: CnaDesc) {
    && Read(r, OP_REG_CNA, CNA_DATA_SIZE3, 22, 0) == cna.dataoutAtomics
    && Read(r, OP_REG_CNA, CNA_WEIGHT_SIZE0, 32, 0) == cna.weightBytes
    && Read(r, OP_REG_CNA, CNA_WEIGHT_SIZE1, 19, 0) == cna.weightBytesPerKernel
    && Read(r, OP_REG_CNA, CNA_WEIGHT_SIZE2, 5, 24) == cna.weightWidth
    && Read(r, OP_REG_CNA, CNA_WEIGHT_SIZE2, 5, 16) == cna.weightHeight
    && Read(r, OP_REG_CNA, CNA_WEIGHT_SIZE2, 14, 0) == cna.weightKernels
    && Read(r, OP_REG_CNA, CNA_CBUF_CON0, 4, 4) == cna.weightBank
    && Read(r, OP_REG_CNA, CNA_CBUF_CON0, 4, 0) == cna.dataBank
    && Read(r, OP_REG_CNA, CNA_CBUF_CON1, 14, 0) == cna.dataEntries
  }

  predicate ConversionRecovered(r: Registers, cna: CnaDesc) {
    && Read(r, OP_REG_CNA, CNA_CVT_CON0, 1, 3) == cna.dataSign
    && Read(r, OP_REG_CNA, CNA_CVT_CON0, 1, 1) == cna.cvtType
    && Read(r, OP_REG_CNA, CNA_CVT_CON0, 1, 0) == cna.cvtBypass
    && Read(r, OP_REG_CNA, CNA_CVT_CON1, 16, 16) == cna.cvtScale0
    && Read(r, OP_REG_CNA, CNA_CVT_CON2, 16, 16) == cna.cvtScale1
    && Read(r, OP_REG_CNA, CNA_CVT_CON3, 16, 16) == cna.cvtScale2
    && Read(r, OP_REG_CNA, CNA_CVT_CON4, 16, 16) == cna.cvtScale3
    && Read(r, OP_REG_CNA, CNA_FC_CON0, 1, 0) == cna.fcSkipEn
    && Read(r, OP_REG_CNA, CNA_FC_CON1, 17, 0) == cna.dataOffset
    && Read(r, OP_REG_CNA, CNA_PAD_CON0, 4, 4) == cna.padLeft
    && Read(r, OP_REG_CNA, CNA_PAD_CON0, 4, 0) == cna.padTop
  }

  predicate DmaRecovered(r: Registers, cna: CnaDesc) {
    && Read(r, OP_REG_CNA, CNA_FEATURE_DATA_ADDR, 32, 0) == cna.featureBaseAddr
    && Read(r, OP_REG_CNA, CNA_FC_CON2, 17, 0) == cna.weightOffset
    && Read(r, OP_REG_CNA, CNA_DMA_CON0, 4, 16) == cna.weightBurstLen
    && Read(r, OP_REG_CNA, CNA_DMA_CON0, 4, 0) == cna.dataBurstLen
    && Read(r, OP_REG_CNA, CNA_DMA_CON1, 28, 0) == cna.lineStride
    && SignExtend28(Read(r, OP_REG_CNA, CNA_DMA_CON2, 28, 0)) == cna.surfStride
  }

  predicate FcDataRecovered(r: Registers, cna: CnaDesc) {
    && Read(r, OP_REG_CNA, CNA_FC_DATA_SIZE0, 14, 16) == cna.dmaWidth
    && Read(r, OP_REG_CNA, CNA_FC_DATA_SIZE0, 11, 0) == cna.dmaHeight
    && Read(r, OP_REG_CNA, CNA_FC_DATA_SIZE1, 16, 0) == cna.dmaChannel
    && Read(r, OP_REG_CNA, CNA_DCOMP_ADDR0, 32, 0) == cna.decompressAddr0
  }

  predicate CoreRecovered(r: Registers, core: CoreDesc) {
    && Read(r, OP_REG_CORE, CORE_MISC_CFG, 3, 8) == core.procPrecision
    && Read(r, OP_REG_CORE, CORE_MISC_CFG, 1, 0) == core.qdEn
    && Read(r, OP_REG_CORE, CORE_DATAOUT_SIZE_0, 16, 16) == core.dataoutHeight
    && Read(r, OP_REG_CORE, CORE_DATAOUT_SIZE_0, 16, 0) == core.dataoutWidth
    && Read(r, OP_REG_CORE, CORE_DATAOUT_SIZE_1, 16, 0) == core.dataoutChannel
  }

  predicate OutputRecovered(r: Registers, dpu: DpuDesc) {
    && Read(r, OP_REG_DPU, DPU_FEATURE_MODE_CFG, 4, 5) == dpu.burstLen
    && Read(r, OP_REG_DPU, DPU_FEATURE_MODE_CFG, 2, 3) == dpu.convMode
    && Read(r, OP_REG_DPU, DPU_FEATURE_MODE_CFG, 2, 1) == dpu.outputMode
    && Read(r, OP_REG_DPU, DPU_FEATURE_MODE_CFG, 1, 0) == dpu.flyingMode
    && Read(r, OP_REG_DPU, DPU_DATA_FORMAT, 3, 29) == dpu.outPrecision
    && Read(r, OP_REG_DPU, DPU_DATA_FORMAT, 3, 26) == dpu.inPrecision
    && Read(r, OP_REG_DPU, DPU_DATA_FORMAT, 3, 0) == dpu.procPrecision
    && Read(r, OP_REG_DPU, DPU_DST_BASE_ADD, 32, 0) == dpu.dstBaseAddr
    && Read(r, OP_REG_DPU, DPU_DST_SURF_STRIDE, 28, 4) == dpu.dstSurfStride
    && Read(r, OP_REG_DPU, DPU_DATA_CUBE_WIDTH, 13, 0) == dpu.width
    && Read(r, OP_REG_DPU, DPU_DATA_CUBE_HEIGHT, 13, 0) == dpu.height
    && Read(r, OP_REG_DPU, DPU_DATA_CUBE_CHANNEL, 13, 16) == dpu.channel
    && Read(r, OP_REG_DPU, DPU_DATA_CUBE_CHANNEL, 13, 0) == dpu.channel
  }

  predicate BiasRecovered(r: Registers, dpu: DpuDesc) {
    && Read(r, OP_REG_DPU, DPU_BS_CFG, 1, 6) == dpu.bsReluBypass
    && Read(r, OP_REG_DPU, DPU_BS_CFG, 1, 4) == dpu.bsMulBypass
    && Read(r, OP_REG_DPU, DPU_BS_CFG, 1, 1) == dpu.bsAluBypass
    && Read(r, OP_REG_DPU, DPU_BS_CFG, 1, 0) == dpu.bsBypass
    && Read(r, OP_REG_DPU, DPU_BS_OW_CFG, 3, 8) == dpu.sizeE2
    && Read(r, OP_REG_DPU, DPU_BS_OW_CFG, 3, 5) == dpu.sizeE1
    && Read(r, OP_REG_DPU, DPU_BS_OW_CFG, 3, 2) == dpu.sizeE0
    && Read(r, OP_REG_DPU, DPU_BS_OW_CFG, 1, 1) == dpu.odBypass
    && Read(r, OP_REG_DPU, DPU_WDMA_SIZE_0, 13, 0) == dpu.channelWdma
    && Read(r, OP_REG_DPU, DPU_WDMA_SIZE_1, 13, 16) == dpu.heightWdma
    && Read(r, OP_REG_DPU, DPU_WDMA_SIZE_1, 13, 0) == dpu.widthWdma
  }

  predicate BatchNormRecovered(r: Registers, dpu: DpuDesc) {
    && Read(r, OP_REG_DPU, DPU_BN_CFG, 1, 6) == dpu.bnReluBypass
    && Read(r, OP_REG_DPU, DPU_BN_CFG, 1, 4) == dpu.bnMulBypass
    && Read(r, OP_REG_DPU, DPU_BN_CFG, 1, 1) == dpu.bnAluBypass
    && Read(r, OP_REG_DPU, DPU_BN_CFG, 1, 0) == dpu.bnBypass
  }

  predicate ElementwiseRecovered(r: Registers, dpu: DpuDesc) {
    && Read(r, OP_REG_DPU, DPU_EW_CFG, 1, 9) == dpu.ewReluBypass
    && Read(r, OP_REG_DPU, DPU_EW_CFG, 1, 8) == dpu.ewOpCvtBypass
    && Read(r, OP_REG_DPU, DPU_EW_CFG, 1, 7) == dpu.ewLutBypass
    && Read(r, OP_REG_DPU, DPU_EW_CFG, 1, 1) == dpu.ewOpBypass
    && Read(r, OP_REG_DPU, DPU_EW_CFG, 1, 0) == dpu.ewBypass
    && Read(r, OP_REG_DPU, DPU_OUT_CVT_SCALE, 1, 16) == dpu.fp32tofp16En
    && Read(r, OP_REG_DPU, DPU_OUT_CVT_SCALE, 16, 0) == dpu.outCvtScale
    && Read(r, OP_REG_DPU, DPU_SURFACE_ADD, 28, 4) == dpu.surfAdd
  }

  predicate SizesFits(cna: CnaDesc) {
    && cna.procPrecision < 0x8
    && cna.inPrecision < 0x8
    && cna.convMode < 0x10
    && cna.featureGrains < 0x400
    && cna.convYStride < 0x8
    && cna.convXStride < 0x8
    && cna.datainWidth < 0x800
    && cna.datainHeight < 0x800
    && 1 <= cna.datainChannel <= 0x4000
    && cna.dataoutWidth < 0x800
  }

  predicate WeightsFits(cna: CnaDesc) {
    && cna.dataoutAtomics < 0x40000
    && cna.weightBytesPerKernel < 0x80000
    && cna.weightWidth < 0x20
    && cna.weightHeight < 0x20
    && cna.weightKernels < 0x4000
    && cna.weightBank < 0x10
    && cna.dataBank < 0x10
    && cna.dataEntries < 0x2000
  }

  predicate ConversionFits(cna: CnaDesc) {
    && cna.dataSign < 0x2
    && cna.cvtType < 0x2
    && cna.cvtBypass < 0x2
    && cna.fcSkipEn < 0x2
    && cna.padLeft < 0x10
    && cna.padTop < 0x10
  }

  predicate DmaFits(cna: CnaDesc) {
    && cna.weightBurstLen < 0x10
    && cna.dataBurstLen < 0x10
    && cna.lineStride < 0x10000000
    && -0x800_0000 <= cna.surfStride < 0x800_0000
  }

  predicate FcDataFits(cna: CnaDesc) {
    && cna.dmaWidth < 0x800
    && cna.dmaHeight < 0x800
  }

  predicate CoreFits(core: CoreDesc) {
    && core.procPrecision < 0x8
    && core.qdEn < 0x2
  }

  predicate OutputFits(dpu: DpuDesc) {
    && dpu.burstLen < 0x10
    && dpu.convMode < 0x4
    && dpu.outputMode < 0x4
    && dpu.flyingMode < 0x2
    && dpu.outPrecision < 0x8
    && dpu.inPrecision < 0x8
    && dpu.procPrecision < 0x8
    && dpu.dstSurfStride < 0x10000000
    && dpu.width < 0x2000
    && dpu.height < 0x2000
    && dpu.channel < 0x2000
  }

  predicate BiasFits(dpu: DpuDesc) {
    && dpu.bsReluBypass < 0x2
    && dpu.bsMulBypass < 0x2
    && dpu.bsAluBypass < 0x2
    && dpu.bsBypass < 0x2
    && dpu.sizeE2 < 0x8
    && dpu.sizeE1 < 0x8
    && dpu.sizeE0 < 0x8
    && dpu.odBypass < 0x2
    && dpu.channelWdma < 0x2000
    && dpu.heightWdma < 0x2000
    && dpu.widthWdma < 0x2000
  }

  predicate BatchNormFits(dpu: DpuDesc) {
    && dpu.bnReluBypass < 0x2
    && dpu.bnMulBypass < 0x2
    && dpu.bnAluBypass < 0x2
    && dpu.bnBypass < 0x2
  }

  predicate ElementwiseFits(dpu: DpuDesc) {
    && dpu.ewReluBypass < 0x2
    && dpu.ewOpCvtBypass < 0x2
    && dpu.ewLutBypass < 0x2
    && dpu.ewOpBypass < 0x2
    && dpu.ewBypass < 0x2
    && dpu.fp32tofp16En < 0x2
    && dpu.surfAdd < 0x10000000
  }

  /** What reading field `j` of command `c` gives: its value, exactly when that fits the field. */
  predicate Faithful(r: Registers, c: Command, j: nat)
    requires j < |c.fields|
  {
    var f := c.fields[j];
    && Read(r, c.op, c.reg, f.width, f.shift) == And(f.value, Mask(f.width))
    && (Read(r, c.op, c.reg, f.width, f.shift) == f.value <==> 0 <= f.value <= Mask(f.width))
  }

  /** Every field of every command is recovered exactly when it fits, for any descriptors. */
  lemma FieldRoundTrip(d: Descriptors, i: nat, j: nat)
    requires i < REGISTER_WRITES && j < |CommandAt(i, d).fields|
    ensures Faithful(Run(TaskWords(d)), CommandAt(i, d), j)
  {
    hide Run, TaskWords, Pack, Extract, And, Mask, CommandAt;
    var fs := CommandAt(i, d).fields;
    RegisterValue(i, d);
    FieldsShaped(i, d);
    ExtractPack(fs, j);
    MaskKeeps(fs[j].value, fs[j].width);
  }

  lemma ReadsBack(d: Descriptors, i: nat)
    requires i < REGISTER_WRITES
    ensures var c := CommandAt(i, d);
            && (|c.fields| > 0 ==> Faithful(Run(TaskWords(d)), c, 0))
            && (|c.fields| > 1 ==> Faithful(Run(TaskWords(d)), c, 1))
            && (|c.fields| > 2 ==> Faithful(Run(TaskWords(d)), c, 2))
            && (|c.fields| > 3 ==> Faithful(Run(TaskWords(d)), c, 3))
            && (|c.fields| > 4 ==> Faithful(Run(TaskWords(d)), c, 4))
  {
    hide CommandAt, Faithful, Run, TaskWords;
    forall j | 0 <= j < |CommandAt(i, d).fields|
      ensures Faithful(Run(TaskWords(d)), CommandAt(i, d), j)
    {
      FieldRoundTrip(d, i, j);
    }
  }

  // ----- the fields whose encoded width is not the described width, and the signed one

  /** Reading the first field of a command with its described width gives its value exactly when
      that fits both widths. */
  lemma WideRead(d: Descriptors, i: nat, op: int, reg: int, f: Field, width: nat)
    requires i < REGISTER_WRITES && FirstField(CommandAt(i, d), op, reg, f, width)
    ensures Read(Run(TaskWords(d)), op, reg, width, f.shift) == f.value
       <==> 0 <= f.value <= Mask(f.width) && f.value <= Mask(width)
  {
    hide Run, TaskWords, Pack, Extract, And, Mask, CommandAt;
    var fs := CommandAt(i, d).fields;
    RegisterValue(i, d);
    ExtractPackWide(fs, 0, width);
    MaskKeeps(f.value, f.width);
    MaskKeeps(And(f.value, Mask(f.width)), width);
    TwiceMasked(f.value, f.width, width);
  }

  lemma TwiceMasked(x: int, w: nat, v: nat)
    ensures And(And(x, Mask(w)), Mask(v)) == x <==> 0 <= x <= Mask(w) && x <= Mask(v)
  {
    hide And, Mask;
    MaskKeeps(x, w);
    MaskKeeps(And(x, Mask(w)), v);
  }

  predicate FirstField(c: Command, op: int, reg: int, f: Field, width: nat) {
    && c.op == op && c.reg == reg && |c.fields| > 0 && c.fields[0] == f
    && forall l :: 0 < l < |c.fields| ==> Apart(c.fields[l].shift, c.fields[l].width, f.shift, width)
  }

  lemma FirstFields(d: Descriptors)
    ensures FirstField(CommandAt(5, d), OP_REG_CNA, CNA_DATA_SIZE1, Field(d.cna.datainChannel - 1, 16, 16), 14)
    ensures FirstField(CommandAt(7, d), OP_REG_CNA, CNA_DATA_SIZE3, Field(d.cna.dataoutAtomics, 18, 0), 22)
    ensures FirstField(CommandAt(12, d), OP_REG_CNA, CNA_CBUF_CON1, Field(d.cna.dataEntries, 13, 0), 14)
    ensures FirstField(CommandAt(26, d), OP_REG_CNA, CNA_FC_DATA_SIZE0, Field(d.cna.dmaWidth, 11, 16), 14)
    ensures FirstField(CommandAt(25, d), OP_REG_CNA, CNA_DMA_CON2, Field(d.cna.surfStride, 28, 0), 28)
  {
  }

  lemma ChannelReads(d: Descriptors)
    ensures Read(Run(TaskWords(d)), OP_REG_CNA, CNA_DATA_SIZE1, 14, 16) == d.cna.datainChannel - 1
       <==> 1 <= d.cna.datainChannel <= 0x4000
  {
    hide Read, Run, TaskWords, Mask, CommandAt;
    MaskValues();
    FirstFields(d);
    WideRead(d, 5, OP_REG_CNA, CNA_DATA_SIZE1, Field(d.cna.datainChannel - 1, 16, 16), 14);
  }

  lemma AtomicsReads(d: Descriptors)
    ensures Read(Run(TaskWords(d)), OP_REG_CNA, CNA_DATA_SIZE3, 22, 0) == d.cna.dataoutAtomics
       <==> d.cna.dataoutAtomics < 0x40000
  {
    hide Read, Run, TaskWords, Mask, CommandAt;
    MaskValues();
    FirstFields(d);
    WideRead(d, 7, OP_REG_CNA, CNA_DATA_SIZE3, Field(d.cna.dataoutAtomics, 18, 0), 22);
  }

  lemma EntriesReads(d: Descriptors)
    ensures Read(Run(TaskWords(d)), OP_REG_CNA, CNA_CBUF_CON1, 14, 0) == d.cna.dataEntries
       <==> d.cna.dataEntries < 0x2000
  {
    hide Read, Run, TaskWords, Mask, CommandAt;
    MaskValues();
    FirstFields(d);
    WideRead(d, 12, OP_REG_CNA, CNA_CBUF_CON1, Field(d.cna.dataEntries, 13, 0), 14);
  }

  lemma DmaWidthReads(d: Descriptors)
    ensures Read(Run(TaskWords(d)), OP_REG_CNA, CNA_FC_DATA_SIZE0, 14, 16) == d.cna.dmaWidth <==> d.cna.dmaWidth < 0x800
  {
    hide Read, Run, TaskWords, Mask, CommandAt;
    MaskValues();
    FirstFields(d);
    WideRead(d, 26, OP_REG_CNA, CNA_FC_DATA_SIZE0, Field(d.cna.dmaWidth, 11, 16), 14);
  }

  lemma StrideReads(d: Descriptors)
    ensures SignExtend28(Read(Run(TaskWords(d)), OP_REG_CNA, CNA_DMA_CON2, 28, 0)) == d.cna.surfStride
       <==> -0x800_0000 <= d.cna.surfStride < 0x800_0000
  {
    hide Run, TaskWords, Pack, Extract, And, Mask, CommandAt;
    var x := d.cna.surfStride;
    FirstFields(d);
    MaskValues();
    FieldRoundTrip(d, 25, 0);
    MaskKeeps(x, 28);
    if -0x1000_0000 <= x < 0 { MaskWraps(x, 28); }
  }

  lemma SizesRoundTrip(d: Descriptors)
    ensures SizesRecovered(Run(TaskWords(d)), d.cna) <==> SizesFits(d.cna)
  {
    hide Read, Run, TaskWords, Mask, And, SignExtend28;
    MaskValues();
    ReadsBack(d, 1);
    ReadsBack(d, 2);
    ReadsBack(d, 3);
    ReadsBack(d, 4);
    ReadsBack(d, 5);
    ChannelReads(d);
    ReadsBack(d, 6);
  }

  lemma WeightsRoundTrip(d: Descriptors)
    ensures WeightsRecovered(Run(TaskWords(d)), d.cna) <==> WeightsFits(d.cna)
  {
    hide Read, Run, TaskWords, Mask, And, SignExtend28;
    MaskValues();
    ReadsBack(d, 7);
    AtomicsReads(d);
    ReadsBack(d, 8);
    ReadsBack(d, 9);
    ReadsBack(d, 10);
    ReadsBack(d, 11);
    ReadsBack(d, 12);
    EntriesReads(d);
  }

  lemma ConversionRoundTrip(d: Descriptors)
    ensures ConversionRecovered(Run(TaskWords(d)), d.cna) <==> ConversionFits(d.cna)
  {
    hide Read, Run, TaskWords, Mask, And, SignExtend28;
    MaskValues();
    ReadsBack(d, 13);
    ReadsBack(d, 14);
    ReadsBack(d, 15);
    ReadsBack(d, 16);
    ReadsBack(d, 17);
    ReadsBack(d, 18);
    ReadsBack(d, 19);
    ReadsBack(d, 20);
  }

  lemma DmaRoundTrip(d: Descriptors)
    ensures DmaRecovered(Run(TaskWords(d)), d.cna) <==> DmaFits(d.cna)
  {
    hide Read, Run, TaskWords, Mask, And, SignExtend28;
    MaskValues();
    ReadsBack(d, 21);
    ReadsBack(d, 22);
    ReadsBack(d, 23);
    ReadsBack(d, 24);
    ReadsBack(d, 25);
    StrideReads(d);
  }

  lemma FcDataRoundTrip(d: Descriptors)
    ensures FcDataRecovered(Run(TaskWords(d)), d.cna) <==> FcDataFits(d.cna)
  {
    hide Read, Run, TaskWords, Mask, And, SignExtend28;
    MaskValues();
    ReadsBack(d, 26);
    DmaWidthReads(d);
    ReadsBack(d, 27);
    ReadsBack(d, 30);
  }

  lemma CoreRoundTrip(d: Descriptors)
    ensures CoreRecovered(Run(TaskWords(d)), d.core) <==> CoreFits(d.core)
  {
    hide Read, Run, TaskWords, Mask, And, SignExtend28;
    MaskValues();
    ReadsBack(d, 49);
    ReadsBack(d, 50);
    ReadsBack(d, 51);
  }

  lemma OutputRoundTrip(d: Descriptors)
    ensures OutputRecovered(Run(TaskWords(d)), d.dpu) <==> OutputFits(d.dpu)
  {
    hide Read, Run, TaskWords, Mask, And, SignExtend28;
    MaskValues();
    ReadsBack(d, 54);
    ReadsBack(d, 55);
    ReadsBack(d, 57);
    ReadsBack(d, 58);
    ReadsBack(d, 59);
    ReadsBack(d, 60);
    ReadsBack(d, 62);
  }

  lemma BiasRoundTrip(d: Descriptors)
    ensures BiasRecovered(Run(TaskWords(d)), d.dpu) <==> BiasFits(d.dpu)
  {
    hide Read, Run, TaskWords, Mask, And, SignExtend28;
    MaskValues();
    ReadsBack(d, 63);
    ReadsBack(d, 67);
    ReadsBack(d, 69);
    ReadsBack(d, 70);
  }

  lemma BatchNormRoundTrip(d: Descriptors)
    ensures BatchNormRecovered(Run(TaskWords(d)), d.dpu) <==> BatchNormFits(d.dpu)
  {
    hide Read, Run, TaskWords, Mask, And, SignExtend28;
    MaskValues();
    ReadsBack(d, 71);
  }

  lemma ElementwiseRoundTrip(d: Descriptors)
    ensures ElementwiseRecovered(Run(TaskWords(d)), d.dpu) <==> ElementwiseFits(d.dpu)
  {
    hide Read, Run, TaskWords, Mask, And, SignExtend28;
    MaskValues();
    ReadsBack(d, 75);
    ReadsBack(d, 80);
    ReadsBack(d, 90);
  }

  // ----- the whole task

  predicate Recovered(r: Registers, d: Descriptors) {
    && SizesRecovered(r, d.cna) && WeightsRecovered(r, d.cna) && ConversionRecovered(r, d.cna)
    && DmaRecovered(r, d.cna) && FcDataRecovered(r, d.cna) && CoreRecovered(r, d.core)
    && OutputRecovered(r, d.dpu) && BiasRecovered(r, d.dpu)
    && BatchNormRecovered(r, d.dpu) && ElementwiseRecovered(r, d.dpu)
  }

  predicate Fits(d: Descriptors) {
    && SizesFits(d.cna) && WeightsFits(d.cna) && ConversionFits(d.cna)
    && DmaFits(d.cna) && FcDataFits(d.cna) && CoreFits(d.core)
    && OutputFits(d.dpu) && BiasFits(d.dpu)
    && BatchNormFits(d.dpu) && ElementwiseFits(d.dpu)
  }

  /** Any descriptors come back from the register file exactly when each field fits its place. */
  lemma TaskRoundTrip(d: Descriptors)
    ensures Recovered(Run(TaskWords(d)), d) <==> Fits(d)
  {
    hide SizesRecovered, WeightsRecovered, ConversionRecovered, DmaRecovered, FcDataRecovered, CoreRecovered;
    hide OutputRecovered, BiasRecovered, BatchNormRecovered, ElementwiseRecovered;
    hide SizesFits, WeightsFits, ConversionFits, DmaFits, FcDataFits, CoreFits;
    hide OutputFits, BiasFits, BatchNormFits, ElementwiseFits;
    hide Run, TaskWords;
    SizesRoundTrip(d);
    WeightsRoundTrip(d);
    ConversionRoundTrip(d);
    DmaRoundTrip(d);
    FcDataRoundTrip(d);
    CoreRoundTrip(d);
    OutputRoundTrip(d);
    BiasRoundTrip(d);
    BatchNormRoundTrip(d);
    ElementwiseRoundTrip(d);
  }

  /** At most one triple of descriptors is recovered by a register file: `Recovered` leaves out no
      member of the three structures. */
  lemma RecoveredUnique(r: Registers, d: Descriptors, e: Descriptors)
    requires Recovered(r, d) && Recovered(r, e)
    ensures d == e
  {
    hide Read, SignExtend28;
    assert d.cna == e.cna;
    assert d.core == e.core;
    assert d.dpu == e.dpu;
  }

  /** On descriptors that fit, encoding loses nothing: different descriptors leave different registers. */
  lemma FittingTasksDistinct(d: Descriptors, e: Descriptors)
    requires Fits(d) && Fits(e) && Run(TaskWords(d)) == Run(TaskWords(e))
    ensures d == e
  {
    hide Fits, Recovered, Run, TaskWords;
    TaskRoundTrip(d);
    TaskRoundTrip(e);
    RecoveredUnique(Run(TaskWords(d)), d, e);
  }
}
