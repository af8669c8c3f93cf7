/** What one call of gen_matmul_fp16 or gen_matmul_int8 guarantees, from sizes to register file. */
module MatmulTask {
  import opened Bits
  import opened NpuHw
  import opened Descriptors
  import opened Commands
  import opened RegisterFile
  import opened Task
  import opened Encoder
  import opened Reserved
  import opened RoundTrip
  import opened WeightLayouts
  import opened Generator
  import opened MatmulTest

  // ----- the bank allocator

  /** On success the features get the least number of banks that holds them, the weights get all the
      other banks, at least one, and one whole kernel fits a bank. Whether all the kernels fit is not
      checked: the computed number of weight banks is discarded. */
  lemma BankSplit(v: Precision, p: Params, banks: nat)
    requires ResultOf(v, p) == 0
    ensures var cna := CnaFor(v, p);
            && cna.dataBank + cna.weightBank == NPU_CBUF_BANKS && cna.weightBank >= 1
            && (banks * NPU_CBUF_BANK_SIZE >= ElementSize(v) * p.m * p.k <==> banks >= cna.dataBank)
            && cna.weightBytesPerKernel == ElementSize(v) * p.k <= NPU_CBUF_BANK_SIZE
            && cna.weightBytes == ElementSize(v) * p.k * p.n < 0x8000_0000
  {
    BytesBounds(v, p);
  }

  lemma CeilDivLeast(a: nat, b: nat, count: nat)
    requires b == 32 || b == 64
    ensures count * b >= a <==> count >= CeilDiv(a, b)
  {
  }

  /** The number of CBUF data entries is the least that covers the k channels, and the surface stride
      is four per complete group of four rows after the first, with -3 for fewer than four rows. */
  lemma EntriesAndStride(v: Precision, p: Params, entries: nat)
    requires ResultOf(v, p) == 0
    ensures entries * EntryChannels(v) >= p.k <==> entries >= CnaFor(v, p).dataEntries
    ensures p.m >= 4 ==> CnaFor(v, p).surfStride + 4 <= p.m < CnaFor(v, p).surfStride + 8
    ensures p.m >= 4 ==> CnaFor(v, p).surfStride % 4 == 0
    ensures p.m < 4 ==> CnaFor(v, p).surfStride == -3
  {
    hide CeilDiv;
    CeilDivLeast(p.k, EntryChannels(v), entries);
  }

  /** The members that C narrows to 16 bits: they hold the sizes they are named after exactly for these m
      and n. m = 65535 leaves 0 feature grains, m = 0 and n = 0 an output of height and channel 65535. */
  lemma SixteenBitMembersIff(v: Precision, p: Params)
    requires ResultOf(v, p) == 0
    ensures CnaFor(v, p).featureGrains == p.m + 1
            && CoreFor(v, p).dataoutHeight == p.m - 1 && CoreFor(v, p).dataoutChannel == p.n - 1
       <==> 1 <= p.m <= 65534 && p.n >= 1
    ensures DpuFor(v, p).height == DpuFor(v, p).heightWdma == CoreFor(v, p).dataoutHeight
    ensures DpuFor(v, p).channel == DpuFor(v, p).channelWdma == CoreFor(v, p).dataoutChannel
  {
    hide U16, ElementSize, CeilDiv, ResultOf;
    NarrowedByOne(p.m);
    NarrowedByOne(p.n);
  }

  lemma NarrowedByOne(x: u16)
    ensures U16(x + 1) == x + 1 <==> x <= 65534
    ensures U16(x - 1) == x - 1 <==> x >= 1
  {
  }

  /** When the weights of a successful call fit the banks they are given: exactly when the banks of the
      features and those of all the weights are at most twelve together. The second term is the bank
      count that the generator computes and then overwrites. */
  lemma WeightsFitIff(v: Precision, p: Params)
    requires ResultOf(v, p) == 0
    ensures CnaFor(v, p).weightBytes <= CnaFor(v, p).weightBank * NPU_CBUF_BANK_SIZE
       <==> DataBanks(v, p) + WeightBanks(v, p) <= NPU_CBUF_BANKS
  {
    BytesBounds(v, p);
    CeilDivBound(ElementSize(v) * p.k * p.n, NPU_CBUF_BANKS - DataBanks(v, p));
  }

  /** An instance: 4 by 4096 by 4096 is accepted with weights of 1024 banks. */
  lemma WeightsMayNotFit()
    ensures var p := Params(4, 4096, 4096, 0, 0, 0, 0);
            && ResultOf(Fp16, p) == 0 && DataBanks(Fp16, p) == 1 && WeightBanks(Fp16, p) == 1024
            && CnaFor(Fp16, p).weightBytes > CnaFor(Fp16, p).weightBank * NPU_CBUF_BANK_SIZE
  {
  }

  method GenMatmulFp16(p: Params, ops: array<nat>) returns (ret: int)
    requires p.m * p.k < 0x8000_0000 && ops.Length >= TASK_LENGTH
    modifies ops
    ensures ret == -1 <==> p.m * p.k > 180224
    ensures ret == -2 <==> p.m * p.k <= 180224 && p.k > 16384
    ensures ret == 0 <==> p.m * p.k <= 180224 && p.k <= 16384
    ensures ret == 0 ==> ResultOf(Fp16, p) == 0 && Encoded(ops, DescriptorsFor(Fp16, p), 0, TASK_LENGTH)
    ensures ret == 0 ==> ops[..REGISTER_WRITES] == TaskWords(DescriptorsFor(Fp16, p))
    ensures forall i :: 0 <= i < ops.Length && (ret != 0 || i >= TASK_LENGTH) ==> ops[i] == old(ops[i])
  {
    hide CommandAt, Word, ResultOf, DescriptorsFor;
    ret := GenMatmul(Fp16, p, ops);
    Thresholds(p);
  }

  method GenMatmulInt8(p: Params, ops: array<nat>) returns (ret: int)
    requires p.m * p.k < 0x8000_0000 && ops.Length >= TASK_LENGTH
    modifies ops
    ensures ret == -1 <==> p.m * p.k > 360448
    ensures ret == -2 <==> p.m * p.k <= 360448 && p.k > 32768
    ensures ret == 0 <==> p.m * p.k <= 360448 && p.k <= 32768
    ensures ret == 0 ==> ResultOf(Int8, p) == 0 && Encoded(ops, DescriptorsFor(Int8, p), 0, TASK_LENGTH)
    ensures ret == 0 ==> ops[..REGISTER_WRITES] == TaskWords(DescriptorsFor(Int8, p))
    ensures forall i :: 0 <= i < ops.Length && (ret != 0 || i >= TASK_LENGTH) ==> ops[i] == old(ops[i])
  {
    hide CommandAt, Word, ResultOf, DescriptorsFor;
    ret := GenMatmul(Int8, p, ops);
    Thresholds(p);
  }

  lemma Thresholds(p: Params)
    ensures ResultOf(Fp16, p) == if p.m * p.k > 180224 then -1 else if p.k > 16384 then -2 else 0
    ensures ResultOf(Int8, p) == if p.m * p.k > 360448 then -1 else if p.k > 32768 then -2 else 0
  {
    assert 2 * p.m * p.k == 2 * (p.m * p.k) && 1 * p.m * p.k == p.m * p.k;
  }

  // ----- what reaches the registers

  /** The descriptors of a successful call come back from the registers exactly for these sizes:
      m = 1023 loses the feature grains, n = 8193 the channel, k = 0 or k > 16384 the real channel,
      and m = 0 or n = 0 the output cube. */
  lemma GeneratedRoundTrip(v: Precision, p: Params)
    requires ResultOf(v, p) == 0
    ensures Recovered(Run(TaskWords(DescriptorsFor(v, p))), DescriptorsFor(v, p))
       <==> 1 <= p.m <= 1022 && 1 <= p.n <= 8192 && 1 <= p.k <= 16384
  {
    hide Recovered, Run, TaskWords;
    TaskRoundTrip(DescriptorsFor(v, p));
    GeneratedFits(v, p);
  }

  /** What the registers say in terms of the call: where the operands and the result are, and a
      1x1 convolution of m rows, k channels and n kernels. */
  lemma RegistersMeanCall(v: Precision, p: Params)
    requires ResultOf(v, p) == 0 && 1 <= p.m <= 1022 && 1 <= p.n <= 8192 && 1 <= p.k <= 16384
    ensures var r := Run(TaskWords(DescriptorsFor(v, p)));
            && Read(r, OP_REG_CNA, CNA_FEATURE_DATA_ADDR, 32, 0) == p.inputDma
            && Read(r, OP_REG_CNA, CNA_DCOMP_ADDR0, 32, 0) == p.weightsDma
            && Read(r, OP_REG_DPU, DPU_DST_BASE_ADD, 32, 0) == p.outputDma
            && Read(r, OP_REG_CNA, CNA_DATA_SIZE0, 11, 0) == p.m && Read(r, OP_REG_CNA, CNA_DATA_SIZE0, 11, 16) == 1
            && Read(r, OP_REG_CNA, CNA_DATA_SIZE1, 16, 0) == p.k
            && Read(r, OP_REG_CNA, CNA_DATA_SIZE1, 14, 16) == p.k - 1
            && Read(r, OP_REG_CNA, CNA_WEIGHT_SIZE2, 14, 0) == p.n
            && Read(r, OP_REG_CNA, CNA_WEIGHT_SIZE2, 5, 24) == 1 == Read(r, OP_REG_CNA, CNA_WEIGHT_SIZE2, 5, 16)
            && Read(r, OP_REG_CNA, CNA_WEIGHT_SIZE0, 32, 0) == ElementSize(v) * p.k * p.n
            && Read(r, OP_REG_CNA, CNA_CBUF_CON0, 4, 0) + Read(r, OP_REG_CNA, CNA_CBUF_CON0, 4, 4) == NPU_CBUF_BANKS
            && Read(r, OP_REG_CORE, CORE_DATAOUT_SIZE_0, 16, 16) == p.m - 1
            && Read(r, OP_REG_DPU, DPU_DATA_CUBE_HEIGHT, 13, 0) == p.m - 1
            && Read(r, OP_REG_CORE, CORE_DATAOUT_SIZE_1, 16, 0) == p.n - 1
            && Read(r, OP_REG_DPU, DPU_DATA_CUBE_CHANNEL, 13, 0) == p.n - 1
  {
    hide Run, TaskWords, Read;
    GeneratedRoundTrip(v, p);
  }

  /** The output format and the repeated sizes, in literals: 32-bit floats, 16-bit floats or 32-bit integers
      come out, an element takes 4, 2 or 8 units, and the surface add is that many surfaces of m rows. */
  lemma RegistersMeanFormat(v: Precision, p: Params)
    requires ResultOf(v, p) == 0 && 1 <= p.m <= 1022 && 1 <= p.n <= 8192 && 1 <= p.k <= 16384
    ensures var r := Run(TaskWords(DescriptorsFor(v, p)));
            && (Read(r, 0x1001, 0x4010, 3, 29) == 5 <==> v.Fp16? && p.fp32tofp16 == 0)
            && (Read(r, 0x1001, 0x4010, 3, 29) == 2 <==> v.Fp16? && p.fp32tofp16 != 0)
            && (Read(r, 0x1001, 0x4010, 3, 29) == 4 <==> v.Int8?)
            && Read(r, 0x1001, 0x4050, 3, 8) == Read(r, 0x1001, 0x4050, 3, 5) == Read(r, 0x1001, 0x4050, 3, 2)
            && Read(r, 0x1001, 0x4050, 3, 8) + 1 == (if v.Int8? then 8 else if p.fp32tofp16 == 0 then 4 else 2)
            && Read(r, 0x1001, 0x40C0, 28, 4) == p.m * (Read(r, 0x1001, 0x4050, 3, 8) + 1)
            && Read(r, 0x1001, 0x4024, 28, 4) == p.m
    ensures var r, code := Run(TaskWords(DescriptorsFor(v, p))), if v.Fp16? then 2 else 0;
            && Read(r, 0x0201, 0x1084, 14, 16) == Read(r, 0x0201, 0x1020, 11, 16) == 1
            && Read(r, 0x0201, 0x1084, 11, 0) == Read(r, 0x0201, 0x1020, 11, 0) == p.m
            && Read(r, 0x0201, 0x1088, 16, 0) == Read(r, 0x0201, 0x1024, 16, 0) == p.k
            && Read(r, 0x0201, 0x100C, 3, 7) == Read(r, 0x0201, 0x100C, 3, 4) == code
            && Read(r, 0x0801, 0x3010, 3, 8) == code
            && Read(r, 0x1001, 0x4010, 3, 26) == Read(r, 0x1001, 0x4010, 3, 0) == code
            && Read(r, 0x0201, 0x1014, 3, 3) == Read(r, 0x0201, 0x1014, 3, 0) == 1
            && Read(r, 0x0201, 0x107C, 28, 0) == 4
            && Read(r, 0x0201, 0x1078, 4, 16) == Read(r, 0x0201, 0x1078, 4, 0) == Read(r, 0x1001, 0x400C, 4, 5) == 15
  {
    hide Run, TaskWords, Read, ResultOf;
    GeneratedRoundTrip(v, p);
  }

  /** The first sizes beyond the bounds: the field reads 0 instead of 1024 and 8192. */
  lemma FirstLosses(v: Precision, p: Params)
    requires ResultOf(v, p) == 0
    ensures p.m == 1023 ==> CnaFor(v, p).featureGrains == 1024
                            && Read(Run(TaskWords(DescriptorsFor(v, p))), OP_REG_CNA, CNA_CONV_CON2, 10, 4) == 0
    ensures p.n == 8193 ==> DpuFor(v, p).channel == 8192
                            && Read(Run(TaskWords(DescriptorsFor(v, p))), OP_REG_DPU, DPU_DATA_CUBE_CHANNEL, 13, 0) == 0
  {
    hide Run, TaskWords, Read;
    GrainsRead(DescriptorsFor(v, p));
    ChannelRead(DescriptorsFor(v, p));
  }

  lemma GrainsRead(d: Descriptors)
    ensures Read(Run(TaskWords(d)), OP_REG_CNA, CNA_CONV_CON2, 10, 4) == d.cna.featureGrains % 1024
  {
    hide Run, TaskWords, Read, And, Mask;
    MaskValues();
    FieldRoundTrip(d, 2, 1);
    MaskIsModulo(d.cna.featureGrains, 10);
  }

  lemma ChannelRead(d: Descriptors)
    ensures Read(Run(TaskWords(d)), OP_REG_DPU, DPU_DATA_CUBE_CHANNEL, 13, 0) == d.dpu.channel % 8192
  {
    hide Run, TaskWords, Read, And, Mask;
    MaskValues();
    FieldRoundTrip(d, 62, 1);
    MaskIsModulo(d.dpu.channel, 13);
  }

  lemma GeneratedFits(v: Precision, p: Params)
    requires ResultOf(v, p) == 0
    ensures Fits(DescriptorsFor(v, p)) <==> 1 <= p.m <= 1022 && 1 <= p.n <= 8192 && 1 <= p.k <= 16384
  {
    hide CnaFor, CoreFor, DpuFor;
    GeneratedSizesFit(v, p);
    GeneratedInputFits(v, p);
    GeneratedOutputFits(v, p);
  }

  lemma GeneratedSizesFit(v: Precision, p: Params)
    requires ResultOf(v, p) == 0
    ensures SizesFits(CnaFor(v, p)) <==> p.m <= 1022 && 1 <= p.k <= 16384
    ensures WeightsFits(CnaFor(v, p)) <==> p.n < 16384
  {
    BytesBounds(v, p);
  }

  lemma GeneratedInputFits(v: Precision, p: Params)
    requires ResultOf(v, p) == 0
    ensures ConversionFits(CnaFor(v, p)) && DmaFits(CnaFor(v, p)) && CoreFits(CoreFor(v, p))
    ensures FcDataFits(CnaFor(v, p)) <==> p.m < 2048
  {
  }

  lemma GeneratedOutputFits(v: Precision, p: Params)
    requires ResultOf(v, p) == 0
    ensures OutputFits(DpuFor(v, p)) && BiasFits(DpuFor(v, p)) <==> 1 <= p.m <= 8192 && 1 <= p.n <= 8192
    ensures BatchNormFits(DpuFor(v, p)) && ElementwiseFits(DpuFor(v, p))
  {
  }

  /** Reserved bits stay clear exactly for 1 <= k <= 16384, which for fp16 the -2 guard ensures from
      above. */
  lemma GeneratedReserved(v: Precision, p: Params)
    requires ResultOf(v, p) == 0
    ensures NoReservedBits(TaskWords(DescriptorsFor(v, p))) <==> 1 <= p.k <= 16384
    ensures v.Fp16? ==> p.k <= 16384
  {
    hide TaskWords, NoReservedBits;
    ReservedClearIff(DescriptorsFor(v, p));
  }

  /** The enable command comes after all register writes and is the only one of its kind. */
  lemma EnableIsLast(d: Descriptors, i: nat)
    requires i < TASK_LENGTH
    ensures Decode(Word(CommandAt(i, d))).op == OP_ENABLE <==> i == TASK_LENGTH - 1
    ensures Decode(Word(CommandAt(TASK_LENGTH - 1, d))) == Write(OP_ENABLE, PC_OPERATION_ENABLE, 0xD)
  {
    hide Decode, NpuOp, Pack, Word, CommandAt;
    DecodeCommand(i, d);
    EnableCommandIs(i, d);
    EnableValue(d);
    DecodeCommand(TASK_LENGTH - 1, d);
  }

  lemma EnableCommandIs(i: nat, d: Descriptors)
    requires i < TASK_LENGTH
    ensures CommandAt(i, d).op == OP_ENABLE <==> i == TASK_LENGTH - 1
  {
  }

  lemma EnableValue(d: Descriptors)
    ensures var c := CommandAt(TASK_LENGTH - 1, d);
            c.op == OP_ENABLE && c.reg == PC_OPERATION_ENABLE && Pack(c.fields) == 0xD
  {
    hide Or, Shl, And;
    MaskKeeps(0xD, 4);
    PackUnfolds();
  }

  // ----- the sizes the test program accepts

  /** What the test's three checks mean for the generator and the layouts. Within the maximum sizes, and when
      generation succeeds, they hold exactly when every row group is complete or there is one row, every CBUF
      entry is full, and the weights of any aligned channel count fit their buffer. */
  lemma AcceptedMeans(p: Params)
    requires ResultOf(Fp16, p) == 0
    ensures Accepted(p.m, p.k, p.n) <==>
              && 1 <= p.m <= 384 && CnaFor(Fp16, p).surfStride == p.m - 4
              && 1 <= p.k <= 4096 && CnaFor(Fp16, p).dataEntries * 32 == p.k
              && 1 <= p.n <= 4096 && forall c :: c >= 32 && c % 32 == 0 ==> SlotsInside(Fp16, c, p.n)
  {
    hide ResultOf, SlotsInside;
    if p.n >= 1 {
      forall c | c >= 32 && c % 32 == 0
        ensures SlotsInside(Fp16, c, p.n) <==> p.n % 16 == 0 || c == 32
      {
        SlotsInsideIff(Fp16, c, p.n);
      }
      assert SlotsInside(Fp16, 64, p.n) <==> p.n % 16 == 0;
    }
  }

  /** For sizes that pass the test's own checks, generation fails only for want of feature banks; when
      it succeeds, everything encoded is recovered and no reserved bit is set. */
  lemma AcceptedSizes(p: Params)
    requires Accepted(p.m, p.k, p.n)
    ensures ResultOf(Fp16, p) == if p.m * p.k > 180224 then -1 else 0
    ensures ResultOf(Fp16, p) == 0 ==>
              && Recovered(Run(TaskWords(DescriptorsFor(Fp16, p))), DescriptorsFor(Fp16, p))
              && NoReservedBits(TaskWords(DescriptorsFor(Fp16, p)))
  {
    hide Recovered, Run, TaskWords, NoReservedBits;
    Thresholds(p);
    if ResultOf(Fp16, p) == 0 {
      GeneratedRoundTrip(Fp16, p);
      GeneratedReserved(Fp16, p);
    }
  }

  /** The largest sizes the test accepts are refused by the generator. */
  lemma LargestAcceptedIsRefused(p: Params)
    requires p.m == 384 && p.k == 4096 && p.n == 4096
    ensures Accepted(p.m, p.k, p.n) && ResultOf(Fp16, p) == -1
  {
    Thresholds(p);
  }
}
