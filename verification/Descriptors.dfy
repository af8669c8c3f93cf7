/** The descriptor structures that the generators fill and the encoder reads, with their C widths. */
module Descriptors {

  type u8 = x: int | 0 <= x < 0x100
  type u16 = x: int | 0 <= x < 0x1_0000
  type u32 = x: int | 0 <= x < 0x1_0000_0000
  type i32 = x: int | -0x8000_0000 <= x < 0x8000_0000

  // Conversions to unsigned types reduce modulo their width; to int, they reinterpret.
  function U8(x: int): u8 { x % 0x100 }
  function U16(x: int): u16 { x % 0x1_0000 }
  function U32(x: int): u32 { x % 0x1_0000_0000 }
  function I32(x: int): i32 { if U32(x) < 0x8000_0000 then U32(x) else U32(x) - 0x1_0000_0000 }

  /** The encoded members of npu_cna_desc. */
  datatype CnaDesc = CnaDesc(
    convMode: u8, inPrecision: u8, procPrecision: u8, kernelGroups: u8, featureGrains: u16, convYStride: u8,
    convXStride: u8, datainWidth: u16, datainHeight: u16, datainChannel: u16, dataoutWidth: u16,
    dataoutAtomics: u32, weightBytes: u32, weightBytesPerKernel: u32, weightWidth: u8, weightHeight: u8,
    weightKernels: u16, weightBank: u8, dataBank: u8, dataEntries: u16, dataSign: u8, cvtType: u8,
    cvtBypass: u8, cvtScale0: u16, cvtScale1: u16, cvtScale2: u16, cvtScale3: u16, fcSkipEn: u8,
    dataOffset: u16, padLeft: u8, padTop: u8, featureBaseAddr: u32, weightOffset: u16, weightBurstLen: u8,
    dataBurstLen: u8, lineStride: u32, surfStride: i32, dmaWidth: u16, dmaHeight: u16, dmaChannel: u16,
    decompressAddr0: u32)

  /** npu_core_desc. */
  datatype CoreDesc = CoreDesc(
    procPrecision: u8, qdEn: u8, dataoutHeight: u16, dataoutWidth: u16, dataoutChannel: u16)

  /** npu_dpu_desc. */
  datatype DpuDesc = DpuDesc(
    burstLen: u8, convMode: u8, outputMode: u8, flyingMode: u8, outPrecision: u8, inPrecision: u8,
    procPrecision: u8, dstBaseAddr: u32, dstSurfStride: u32, width: u16, height: u16, channel: u16,
    bsBypass: u8, bsAluBypass: u8, bsMulBypass: u8, bsReluBypass: u8, odBypass: u8, sizeE2: u8, sizeE1: u8,
    sizeE0: u8, channelWdma: u16, heightWdma: u16, widthWdma: u16, bnReluBypass: u8, bnMulBypass: u8,
    bnAluBypass: u8, bnBypass: u8, ewBypass: u8, ewOpBypass: u8, ewLutBypass: u8, ewOpCvtBypass: u8,
    ewReluBypass: u8, fp32tofp16En: u8, outCvtScale: u16, surfAdd: u32)

  datatype Descriptors = Descriptors(cna: CnaDesc, core: CoreDesc, dpu: DpuDesc)
}
