/** The register file of a successful call, register by register, as numbers in the parameters of the call.

    Like `TaskRegisters`, from which they follow, these lists name offsets and constants by value; the other
    registers of the file hold 0 for every task, except DPU 0x4004 and 0x4078, which hold 0xE and 1. */
module CallRegisters {
  import opened Bits
  import opened Descriptors
  import opened Commands
  import opened RegisterFile
  import opened Task
  import opened TaskRegisters
  import opened WeightLayouts
  import opened Generator

  /** Reducing to 16 bits first does not change a smaller field. */
  lemma ReducedByOne(x: u16)
    ensures U16(x + 1) % 0x400 == (x + 1) % 0x400
    ensures U16(x - 1) == (x - 1) % 0x1_0000 && U16(x - 1) % 0x2000 == (x - 1) % 0x2000
  {
  }

  lemma SizeMembers(v: Precision, p: Params)
    requires ResultOf(v, p) == 0
    ensures var cna, code := CnaFor(v, p), if v.Fp16? then 2 else 0;
            && cna.procPrecision == cna.inPrecision == code && cna.convMode == cna.kernelGroups == 0
            && cna.featureGrains % 0x400 == (p.m + 1) % 0x400 && cna.convYStride == cna.convXStride == 1
            && cna.datainWidth == cna.dataoutWidth == 1 && cna.datainHeight == cna.dataoutAtomics == p.m
            && cna.datainChannel == p.k
  {
    hide U16, CeilDiv, DataBanks, ElementSize, ResultOf;
    ReducedByOne(p.m);
  }

  /** Convolution, tensor sizes and strides. */
  lemma SizesOfCall(v: Precision, p: Params)
    requires ResultOf(v, p) == 0
    ensures var r := Run(TaskWords(DescriptorsFor(v, p)));
            && Contains(r, (0x0201, 0x100C), if v.Fp16? then 0x120 else 0)
            && Contains(r, (0x0201, 0x1010), (p.m + 1) % 0x400 * 16)
            && Contains(r, (0x0201, 0x1014), 9)
            && Contains(r, (0x0201, 0x1020), 0x1_0000 + p.m % 0x800)
            && Contains(r, (0x0201, 0x1024), (p.k - 1) % 0x1_0000 * 0x1_0000 + p.k)
            && Contains(r, (0x0201, 0x1028), 1)
            && Contains(r, (0x0201, 0x102C), p.m)
  {
    hide Run, TaskWords, Contains, Mask, Word, CommandAt, ResultOf, DpuFor, CoreFor, CnaFor;
    SizeMembers(v, p);
    SizeRegisters(DescriptorsFor(v, p));
  }

  lemma WeightMembers(v: Precision, p: Params)
    requires ResultOf(v, p) == 0
    ensures var cna, bytes := CnaFor(v, p), if v.Fp16? then 2 else 1;
            && cna.weightBytes == bytes * p.k * p.n && cna.weightBytesPerKernel % 0x8_0000 == bytes * p.k
            && cna.weightWidth == cna.weightHeight == 1 && cna.weightKernels == p.n
            && cna.dataSign == cna.cvtType == cna.cvtBypass == 1
            && cna.cvtScale0 == cna.cvtScale1 == cna.cvtScale2 == cna.cvtScale3 == 1
  {
    hide DataBanks, CeilDiv;
    ProductBounds(p.k, ElementSize(v));
  }

  lemma BankMembers(v: Precision, p: Params)
    requires ResultOf(v, p) == 0
    ensures var cna, bytes := CnaFor(v, p), if v.Fp16? then 2 else 1;
            var banks := (bytes * p.m * p.k + 32767) / 32768;
            cna.weightBank % 16 * 16 + cna.dataBank % 16 == (12 - banks) * 16 + banks
  {
    hide ResultOf;
    BytesBounds(v, p);
  }

  lemma EntriesMember(v: Precision, p: Params)
    requires ResultOf(v, p) == 0
    ensures CnaFor(v, p).dataEntries % 0x2000 == if v.Fp16? then (p.k + 31) / 32 else (p.k + 63) / 64
  {
    hide ResultOf, DataBanks, ElementSize;
  }

  /** Weights, banks and input conversion. */
  lemma WeightsOfCall(v: Precision, p: Params)
    requires ResultOf(v, p) == 0
    ensures var r, bytes := Run(TaskWords(DescriptorsFor(v, p))), if v.Fp16? then 2 else 1;
            var banks := (bytes * p.m * p.k + 32767) / 32768;
            && Contains(r, (0x0201, 0x1030), bytes * p.k * p.n)
            && Contains(r, (0x0201, 0x1034), bytes * p.k)
            && Contains(r, (0x0201, 0x1038), 0x101_0000 + p.n % 0x4000)
            && Contains(r, (0x0201, 0x1040), (12 - banks) * 16 + banks)
            && Contains(r, (0x0201, 0x1044), if v.Fp16? then (p.k + 31) / 32 else (p.k + 63) / 64)
            && Contains(r, (0x0201, 0x104C), 0xB)
            && Contains(r, (0x0201, 0x1050), 0x1_0000) && Contains(r, (0x0201, 0x1054), 0x1_0000)
            && Contains(r, (0x0201, 0x1058), 0x1_0000) && Contains(r, (0x0201, 0x105C), 0x1_0000)
  {
    hide Run, TaskWords, Contains, Mask, Word, CommandAt, ResultOf, DpuFor, CoreFor, CnaFor;
    WeightMembers(v, p);
    BankMembers(v, p);
    EntriesMember(v, p);
    WeightRegisters(DescriptorsFor(v, p));
  }

  /** Padding, addresses, bursts and DMA strides. */
  lemma DmaOfCall(v: Precision, p: Params)
    requires ResultOf(v, p) == 0
    ensures var r := Run(TaskWords(DescriptorsFor(v, p)));
            && Contains(r, (0x0201, 0x1060), 0) && Contains(r, (0x0201, 0x1064), 0)
            && Contains(r, (0x0201, 0x1068), 0)
            && Contains(r, (0x0201, 0x1070), p.inputDma)
            && Contains(r, (0x0201, 0x1074), 0)
            && Contains(r, (0x0201, 0x1078), 0xF_000F)
            && Contains(r, (0x0201, 0x107C), 4)
            && Contains(r, (0x0201, 0x1080), if p.m < 4 then 0xFFF_FFFD else p.m / 4 * 4 - 4)
            && Contains(r, (0x0201, 0x1084), 0x1_0000 + p.m % 0x800)
            && Contains(r, (0x0201, 0x1088), p.k)
            && Contains(r, (0x0201, 0x1110), p.weightsDma)
  {
    hide U16, Run, TaskWords, Contains, Mask, Word, CommandAt, ResultOf;
    hide DpuFor, CoreFor, CeilDiv, ElementSize, DataBanks;
    DmaRegisters(DescriptorsFor(v, p));
  }

  lemma OutputMembers(v: Precision, p: Params)
    ensures var core, dpu, code := CoreFor(v, p), DpuFor(v, p), if v.Fp16? then 2 else 0;
            && core.procPrecision == dpu.inPrecision == dpu.procPrecision == code
            && core.qdEn == (if v.Fp16? then 1 else 0) && core.dataoutWidth == dpu.width == 0
            && core.dataoutHeight == (p.m - 1) % 0x1_0000 && core.dataoutChannel == (p.n - 1) % 0x1_0000
            && dpu.height % 0x2000 == (p.m - 1) % 0x2000 && dpu.channel % 0x2000 == (p.n - 1) % 0x2000
            && dpu.outPrecision == (if v.Int8? then 4 else if p.fp32tofp16 == 0 then 5 else 2)
            && dpu.burstLen == 15 && dpu.convMode == dpu.flyingMode == 0 && dpu.outputMode == 2
            && dpu.dstBaseAddr == p.outputDma && dpu.dstSurfStride == p.m
  {
    hide U16;
    ReducedByOne(p.m);
    ReducedByOne(p.n);
  }

  /** The accumulator, and the output: its format, address, stride and cube. */
  lemma OutputOfCall(v: Precision, p: Params)
    requires ResultOf(v, p) == 0
    ensures var r := Run(TaskWords(DescriptorsFor(v, p)));
            && Contains(r, (0x0801, 0x3010), if v.Fp16? then 0x201 else 0)
            && Contains(r, (0x0801, 0x3014), (p.m - 1) % 0x1_0000 * 0x1_0000)
            && Contains(r, (0x0801, 0x3018), (p.n - 1) % 0x1_0000)
            && Contains(r, (0x1001, 0x400C), 0x1E4)
            && Contains(r, (0x1001, 0x4010),
                        if v.Int8? then 0x8000_0000 else if p.fp32tofp16 == 0 then 0xA800_0002 else 0x4800_0002)
            && Contains(r, (0x1001, 0x4020), p.outputDma)
            && Contains(r, (0x1001, 0x4024), p.m * 16)
            && Contains(r, (0x1001, 0x4030), 0)
            && Contains(r, (0x1001, 0x4034), (p.m - 1) % 0x2000)
            && Contains(r, (0x1001, 0x403C), (p.n - 1) % 0x2000 * 0x1_0001)
  {
    hide Run, TaskWords, Contains, Mask, Word, CommandAt, ResultOf, DpuFor, CoreFor, CnaFor;
    OutputMembers(v, p);
    OutputRegisters(DescriptorsFor(v, p));
  }

  /** The stages after the accumulator, all of them bypassed, and the write DMA: an output element takes 4, 2
      or 8 units, which sets the size codes (one less) and the surface add (that many surfaces). */
  lemma StagesOfCall(v: Precision, p: Params)
    requires ResultOf(v, p) == 0
    ensures var r := Run(TaskWords(DescriptorsFor(v, p)));
            var units := if v.Int8? then 8 else if p.fp32tofp16 == 0 then 4 else 2;
            && Contains(r, (0x1001, 0x4040), 0x53)
            && Contains(r, (0x1001, 0x4050), (units - 1) * 0x124 + 2)
            && Contains(r, (0x1001, 0x4058), (p.n - 1) % 0x2000)
            && Contains(r, (0x1001, 0x405C), (p.m - 1) % 0x2000 * 0x1_0000)
            && Contains(r, (0x1001, 0x4060), 0x53)
            && Contains(r, (0x1001, 0x4070), 0x383)
            && Contains(r, (0x1001, 0x4084), if v.Fp16? && p.fp32tofp16 % 2 == 1 then 0x1_0001 else 1)
            && Contains(r, (0x1001, 0x40C0), p.m * units * 16)
  {
    hide U16, Run, TaskWords, Contains, Mask, Word, CommandAt, ResultOf, CnaFor, CoreFor;
    ReducedByOne(p.m);
    ReducedByOne(p.n);
    StageRegisters(DescriptorsFor(v, p));
  }
}
