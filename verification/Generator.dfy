/** gen_matmul_fp16 and gen_matmul_int8: from matrix sizes and buffer addresses to a task.

    The two C functions are the same sequence of assignments with different constants, so they are
    one method here, with the precision as a parameter. */
module Generator {
  import opened NpuHw
  import opened Descriptors
  import opened Commands
  import opened Encoder
  import opened WeightLayouts

  /** matmul_params_t, without the task buffer. */
  datatype Params = Params(m: u16, k: u16, n: u16, inputDma: u32, weightsDma: u32, outputDma: u32, fp32tofp16: u8)

  function ElementSize(v: Precision): int {
    if v.Fp16? then 2 else 1
  }

  /** Channels per CBUF data entry. */
  function EntryChannels(v: Precision): int {
    if v.Fp16? then 32 else 64
  }

  function CeilDiv(a: nat, b: nat): nat
    requires b > 0
  {
    (a + b - 1) / b
  }

  /** The outcome, in exact arithmetic: the features must fit 11 banks and one kernel must fit one. */
  function ResultOf(v: Precision, p: Params): int {
    if ElementSize(v) * p.m * p.k > (NPU_CBUF_BANKS - 1) * NPU_CBUF_BANK_SIZE then -1
    else if ElementSize(v) * p.k > NPU_CBUF_BANK_SIZE then -2
    else 0
  }

  function DataBanks(v: Precision, p: Params): nat {
    CeilDiv(ElementSize(v) * p.m * p.k, NPU_CBUF_BANK_SIZE)
  }

  /** The bank count of all the weights, which the generator computes but does not use. */
  function WeightBanks(v: Precision, p: Params): nat {
    ProductBounds(ElementSize(v) * p.k, p.n);
    CeilDiv(ElementSize(v) * p.k * p.n, NPU_CBUF_BANK_SIZE)
  }

  lemma ProductBounds(x: nat, y: u16)
    ensures 0 <= x * y && (x <= 32768 ==> x * y < 0x8000_0000)
  {
    if x <= 32768 { assert x * y <= 32768 * y; }
  }

  lemma CeilDivBound(bytes: nat, banks: nat)
    ensures CeilDiv(bytes, NPU_CBUF_BANK_SIZE) <= banks <==> bytes <= banks * NPU_CBUF_BANK_SIZE
  {
  }

  lemma BytesBounds(v: Precision, p: Params)
    requires ResultOf(v, p) == 0
    ensures 0 <= ElementSize(v) * p.m * p.k <= 11 * 32768 && DataBanks(v, p) <= 11
    ensures 0 <= ElementSize(v) * p.k * p.n < 0x8000_0000
  {
    ProductBounds(ElementSize(v) * p.m, p.k);
    ProductBounds(ElementSize(v) * p.k, p.n);
    CeilDivBound(ElementSize(v) * p.m * p.k, 11);
  }

  /** The descriptors of a successful call. Byte counts, banks, entries and strides are exact; the members
      that C narrows to 16 bits after adding or subtracting one carry their `U16` here as well, and
      `MatmulTask.SixteenBitMembersIff` says when that changes them. */
  function CnaFor(v: Precision, p: Params): CnaDesc
    requires ResultOf(v, p) == 0
  {
    BytesBounds(v, p);
    var code := if v.Fp16? then PRECISION_FLOAT16 else PRECISION_INT8;
    CnaDesc(
      DIRECT_CONVOLUTION, code, code, 0, U16(p.m + 1), 1, 1, 1, p.m, p.k, 1, p.m,
      ElementSize(v) * p.k * p.n, ElementSize(v) * p.k, 1, 1, p.n,
      NPU_CBUF_BANKS - DataBanks(v, p), DataBanks(v, p), CeilDiv(p.k, EntryChannels(v)),
      1, 1, 1, 1, 1, 1, 1, 0, 0, 0, 0, p.inputDma, 0, 15, 15,
      4, if p.m < 4 then -3 else 4 * (p.m / 4 - 1), 1, p.m, p.k, p.weightsDma)
  }

  function CoreFor(v: Precision, p: Params): CoreDesc {
    var code := if v.Fp16? then PRECISION_FLOAT16 else PRECISION_INT8;
    CoreDesc(code, if v.Fp16? then 1 else 0, U16(p.m - 1), 0, U16(p.n - 1))
  }

  /** Size code of an output element, and how many output surfaces one addition skips. */
  function OutputShape(v: Precision, p: Params): (u8, u8) {
    if v.Int8? then (7, 8) else if p.fp32tofp16 == 0 then (3, 4) else (1, 2)
  }

  function DpuFor(v: Precision, p: Params): DpuDesc {
    var code := if v.Fp16? then PRECISION_FLOAT16 else PRECISION_INT8;
    var out := if v.Int8? then PRECISION_INT32 else if p.fp32tofp16 == 0 then PRECISION_FLOAT32 else PRECISION_FLOAT16;
    var (size, skip) := OutputShape(v, p);
    DpuDesc(
      15, DIRECT_CONVOLUTION, 2, 0, out, code, code, p.outputDma, p.m, 0, U16(p.m - 1), U16(p.n - 1),
      1, 1, 1, 1, 1, size, size, size, U16(p.n - 1), U16(p.m - 1), 0, 1, 1, 1, 1, 1, 1, 1, 1, 1,
      if v.Fp16? then p.fp32tofp16 % 2 else 0, 1, p.m * skip)
  }

  function DescriptorsFor(v: Precision, p: Params): Descriptors
    requires ResultOf(v, p) == 0
  {
    Descriptors(CnaFor(v, p), CoreFor(v, p), DpuFor(v, p))
  }

  // ----- the C computation

  /** One product in C: two ints widened to size_t, then truncated to uint32_t. */
  function Bytes(count: int, size: int): u32 {
    U32(count * size)
  }

  /** Bytes to whole CBUF banks, as the generator computes it on unsigned ints. */
  method Banks(bytes: u32) returns (banks: u32)
    ensures banks == CeilDiv(bytes, NPU_CBUF_BANK_SIZE)
  {
    banks := bytes / NPU_CBUF_BANK_SIZE;
    banks := if bytes % NPU_CBUF_BANK_SIZE == 0 then banks else banks + 1;
  }

  // The arithmetic of the C computation, step by step, against the form of `DescriptorsFor`.

  lemma ByteCounts(v: Precision, p: Params)
    requires p.m * p.k < 0x8000_0000
    ensures Bytes(1 * 1 * p.k, ElementSize(v)) == ElementSize(v) * p.k
    ensures Bytes(1 * p.m * p.k, ElementSize(v)) == ElementSize(v) * p.m * p.k
  {
    ProductBounds(p.m, p.k);
    assert ElementSize(v) == 1 || ElementSize(v) == 2;
    assert 2 * p.m * p.k == 2 * (p.m * p.k) && 1 * p.m * p.k == p.m * p.k;
  }

  lemma Outcome(v: Precision, p: Params)
    requires ElementSize(v) * p.m * p.k >= 0
    ensures ResultOf(v, p) == if DataBanks(v, p) > 11 then -1
                              else if ElementSize(v) * p.k <= NPU_CBUF_BANK_SIZE then 0
                              else -2
  {
  }

  lemma SuccessfulCounts(v: Precision, p: Params)
    requires ResultOf(v, p) == 0
    ensures U32(ElementSize(v) * p.k * p.n) == ElementSize(v) * p.k * p.n
    ensures 0 <= ElementSize(v) * p.m * p.k && DataBanks(v, p) <= 11
    ensures U8(DataBanks(v, p)) == DataBanks(v, p)
    ensures U8(NPU_CBUF_BANKS - DataBanks(v, p)) == NPU_CBUF_BANKS - DataBanks(v, p)
  {
    BytesBounds(v, p);
  }

  lemma Entries(v: Precision, k: u16)
    ensures var e := EntryChannels(v);
            (if 1 * k % e == 0 then U16(1 * k / e) else U16(U16(1 * k / e) + 1)) == CeilDiv(k, e)
  {
    if v.Fp16? { EntriesOf(k, 32); } else { EntriesOf(k, 64); }
  }

  lemma EntriesOf(k: u16, e: nat)
    requires e == 32 || e == 64
    ensures U16(k / e) == k / e && U16(k / e + 1) == k / e + 1
    ensures CeilDiv(k, e) == if k % e == 0 then k / e else k / e + 1
  {
  }

  lemma Narrow(v: Precision, p: Params)
    ensures U32(1 * p.m) == p.m == U32(p.m * 1) && U32(1 * 4) == 4 && U16(1 - 1) == 0
    ensures U32(p.m * OutputShape(v, p).1) == p.m * OutputShape(v, p).1
  {
  }

  /** uint32_t times int is computed modulo 2^32 and read back as int. For m < 4 the product does wrap,
      and reading it back undoes that. */
  lemma Stride(m: u16)
    ensures I32(U32(1 * 4) * U32(m / 4 - 1)) == 4 * (m / 4 - 1)
  {
  }

  /** The part of the generator that fills the accumulation and output descriptors. */
  method FillOutput(v: Precision, p: Params, weightKernels: u16, dataoutWidth: u16, dataoutHeight: u16)
    returns (core: CoreDesc, dpu: DpuDesc)
    requires weightKernels == p.n && dataoutWidth == 1 && dataoutHeight == p.m
    ensures core == CoreFor(v, p) && dpu == DpuFor(v, p)
  {
    hide U16, U32, OutputShape;
    Narrow(v, p);
    var code := if v.Fp16? then PRECISION_FLOAT16 else PRECISION_INT8;
    core := *;
    dpu := *;
    core := core.(procPrecision := code, qdEn := if v.Fp16? then 1 else 0);
    core := core.(dataoutHeight := U16(dataoutHeight - 1), dataoutWidth := U16(dataoutWidth - 1));
    core := core.(dataoutChannel := U16(weightKernels - 1));

    dpu := dpu.(burstLen := 0xF, convMode := DIRECT_CONVOLUTION, outputMode := 0x2, flyingMode := 0x0);
    dpu := dpu.(outPrecision := if v.Int8? then PRECISION_INT32
                                else if p.fp32tofp16 == 0 then PRECISION_FLOAT32 else PRECISION_FLOAT16);
    dpu := dpu.(inPrecision := code, procPrecision := code, dstBaseAddr := p.outputDma);
    dpu := dpu.(dstSurfStride := U32(dataoutHeight * dataoutWidth));
    dpu := dpu.(width := core.dataoutWidth, height := core.dataoutHeight, channel := core.dataoutChannel);
    dpu := dpu.(bsBypass := 1, bsAluBypass := 1, bsMulBypass := 1, bsReluBypass := 1);
    dpu := dpu.(bnBypass := 1, bnAluBypass := 1, bnMulBypass := 1, bnReluBypass := 1);
    dpu := dpu.(ewBypass := 1, ewOpBypass := 1, ewLutBypass := 1, ewOpCvtBypass := 1, ewReluBypass := 1);
    dpu := dpu.(fp32tofp16En := if v.Fp16? then p.fp32tofp16 % 2 else 0, outCvtScale := 1);
    var shape := OutputShape(v, p);
    dpu := dpu.(sizeE2 := shape.0, sizeE1 := shape.0, sizeE0 := shape.0, odBypass := 1);
    dpu := dpu.(widthWdma := core.dataoutWidth, heightWdma := core.dataoutHeight, channelWdma := core.dataoutChannel);
    dpu := dpu.(surfAdd := U32(dpu.dstSurfStride * shape.1));
  }

  method GenMatmul(v: Precision, p: Params, ops: array<nat>) returns (ret: int)
    requires p.m * p.k < 0x8000_0000  // the product is formed in a signed int
    requires ops.Length >= TASK_LENGTH
    modifies ops
    ensures ret == ResultOf(v, p)
    ensures ret == 0 ==> Encoded(ops, DescriptorsFor(v, p), 0, TASK_LENGTH)
    ensures forall i :: 0 <= i < ops.Length && (ret != 0 || i >= TASK_LENGTH) ==> ops[i] == old(ops[i])
  {
    hide U8, U16, U32, I32, CeilDiv, Bytes, ElementSize, ResultOf, OutputShape;
    ByteCounts(v, p);
    Outcome(v, p);
    var size := ElementSize(v);
    var code := if v.Fp16? then PRECISION_FLOAT16 else PRECISION_INT8;
    var cna: CnaDesc := *;

    cna := cna.(convMode := DIRECT_CONVOLUTION, inPrecision := code, procPrecision := code);
    cna := cna.(kernelGroups := 0, featureGrains := U16(p.m + 1), convXStride := 1, convYStride := 1);
    cna := cna.(datainWidth := 1, datainHeight := p.m, datainChannel := p.k, dataoutWidth := 1);
    var dataoutHeight: u16 := p.m;
    cna := cna.(dataoutAtomics := U32(cna.dataoutWidth * dataoutHeight));

    cna := cna.(weightWidth := 1, weightHeight := 1, weightKernels := p.n);
    cna := cna.(weightBytesPerKernel := Bytes(cna.weightWidth * cna.weightHeight * cna.datainChannel, size));
    cna := cna.(weightBytes := U32(cna.weightBytesPerKernel * cna.weightKernels));

    var fdBytes := Bytes(cna.datainWidth * cna.datainHeight * cna.datainChannel, size);
    var fdBanks := Banks(fdBytes);
    var weightBanks := Banks(cna.weightBytes);
    if fdBanks > NPU_CBUF_BANKS - 1 {
      return -1;
    } else if cna.weightBytesPerKernel <= NPU_CBUF_BANK_SIZE {
      weightBanks := NPU_CBUF_BANKS - fdBanks;
    } else {
      return -2;
    }
    SuccessfulCounts(v, p);
    Entries(v, p.k);
    Stride(p.m);
    Narrow(v, p);

    cna := cna.(weightBank := U8(weightBanks), dataBank := U8(fdBanks));
    cna := cna.(dataEntries := U16(cna.datainWidth * cna.datainChannel / EntryChannels(v)));
    cna := cna.(dataEntries := if cna.datainWidth * cna.datainChannel % EntryChannels(v) == 0
                               then cna.dataEntries else U16(cna.dataEntries + 1));
    cna := cna.(dataSign := 0x1, cvtType := 0x1, cvtBypass := 0x1);
    cna := cna.(cvtScale0 := 0x1, cvtScale1 := 0x1, cvtScale2 := 0x1, cvtScale3 := 0x1);
    cna := cna.(fcSkipEn := 0, dataOffset := 0x0, padLeft := 0, padTop := 0, featureBaseAddr := p.inputDma);
    cna := cna.(weightOffset := 0, weightBurstLen := 0xF, dataBurstLen := 0xF);
    cna := cna.(lineStride := U32(cna.datainWidth * 4));
    var surfStride := I32(cna.lineStride * U32(cna.datainHeight / 4 - 1));
    surfStride := if surfStride < 0 then surfStride + 1 else surfStride;
    cna := cna.(surfStride := surfStride, dmaWidth := cna.datainWidth, dmaHeight := cna.datainHeight);
    cna := cna.(dmaChannel := cna.datainChannel, decompressAddr0 := p.weightsDma);

    var core, dpu := FillOutput(v, p, cna.weightKernels, cna.dataoutWidth, dataoutHeight);
    assert cna == CnaFor(v, p);
    GenMatmulTask(ops, cna, core, dpu);
    return 0;
  }
}
