/** The register description generated for the Mesa driver (include/mesa_registers.h): which block a
    register belongs to, and which bits of it are reserved. */
module MesaRegisters {
  import opened NpuHw

  const PC := 0x100
  const CNA := 0x200
  const CORE := 0x800
  const DPU := 0x1000

  const REG_PC_BASE_ADDRESS := 0x0010
  const REG_CNA_OPERATION_ENABLE := 0x1008

  /** rkt_get_target for the offsets of the four blocks below 0x5000; 0 for unknown registers. */
  function TargetOf(off: nat): nat
    requires off < 0x5000
  {
    if off % 4 != 0 then 0
    else if off <= 0x0008 || 0x0010 <= off <= 0x0014 || 0x0020 <= off <= 0x0034 || off == 0x003C then PC
    else if 0x1000 <= off <= 0x1014 || 0x1020 <= off <= 0x1038 || 0x1040 <= off <= 0x1044 ||
        0x104C <= off <= 0x1068 || 0x1070 <= off <= 0x1088 || off == 0x1090 || 0x1100 <= off <= 0x1104 ||
        off == 0x1110 || 0x1140 <= off <= 0x1184 then CNA
    else if 0x3000 <= off <= 0x301C then CORE
    else if 0x4000 <= off <= 0x4014 || 0x4020 <= off <= 0x4024 || 0x4030 <= off <= 0x4088 ||
        0x4090 <= off <= 0x40AC || off == 0x40C0 || 0x4100 <= off <= 0x412C then DPU
    else 0
  }

  /** Bit `b` of register `reg` lies in one of its RESERVED fields. */
  predicate ReservedBit(reg: nat, b: nat)
    requires b < 32
  {
    if reg < 0x1000 then ReservedControlBit(reg, b)
    else if reg < 0x3000 then ReservedInputBit(reg, b) else ReservedOutputBit(reg, b)
  }

  predicate ReservedControlBit(reg: nat, b: nat) {
    if reg == PC_OPERATION_ENABLE then 1 <= b
    else if reg == REG_PC_BASE_ADDRESS then 1 <= b <= 3
    else if reg == PC_REGISTER_AMOUNTS then 16 <= b
    else if reg == 0x0020 then 14 <= b
    else if reg == 0x0024 then 14 <= b
    else if reg == 0x0028 then 14 <= b
    else if reg == 0x002C then 14 <= b
    else if reg == 0x0030 then 14 <= b
    else if reg == 0x0034 then b <= 3
    else if reg == 0x003C then 28 <= b
    else false
  }

  predicate ReservedInputBit(reg: nat, b: nat) {
    if reg == REG_CNA_OPERATION_ENABLE then 1 <= b
    else if reg == CNA_CONV_CON1 then b == 31 || 17 <= b <= 28 || 10 <= b <= 11
    else if reg == CNA_CONV_CON2 then 24 <= b || 14 <= b <= 15 || b == 3
    else if reg == CNA_CONV_CON3 then b == 31 || 26 <= b <= 27 || 14 <= b <= 15 || 6 <= b <= 7
    else if reg == CNA_DATA_SIZE0 then 27 <= b || 11 <= b <= 15
    else if reg == CNA_DATA_SIZE1 then 30 <= b
    else if reg == CNA_DATA_SIZE2 then 11 <= b
    else if reg == CNA_DATA_SIZE3 then 24 <= b
    else if reg == CNA_WEIGHT_SIZE1 then 19 <= b
    else if reg == CNA_WEIGHT_SIZE2 then 29 <= b || 21 <= b <= 23 || 14 <= b <= 15
    else if reg == CNA_CBUF_CON0 then 14 <= b || b == 11
    else if reg == CNA_CBUF_CON1 then 14 <= b
    else if reg == CNA_CVT_CON0 then 28 <= b
    else if reg == CNA_FC_CON0 then 1 <= b <= 15
    else if reg == CNA_FC_CON1 then 17 <= b
    else if reg == CNA_PAD_CON0 then 8 <= b
    else if reg == CNA_FC_CON2 then 17 <= b
    else if reg == CNA_DMA_CON0 then 20 <= b <= 30 || 4 <= b <= 15
    else if reg == CNA_DMA_CON1 then 28 <= b
    else if reg == CNA_DMA_CON2 then 28 <= b
    else if reg == CNA_FC_DATA_SIZE0 then 30 <= b || 11 <= b <= 15
    else if reg == CNA_FC_DATA_SIZE1 then 16 <= b
    else if reg == CNA_DCOMP_CTRL then 4 <= b
    else if reg == 0x1000 then 18 <= b || 2 <= b <= 15
    else if reg == 0x1004 then 17 <= b || 6 <= b <= 15
    else if reg == 0x1090 then 5 <= b || b == 3
    else false
  }

  predicate ReservedOutputBit(reg: nat, b: nat) {
    if reg == DPU_S_POINTER then 17 <= b || 6 <= b <= 15
    else if reg == CORE_MISC_CFG then 20 <= b || 11 <= b <= 13 || 2 <= b <= 7
    else if reg == CORE_DATAOUT_SIZE_1 then 16 <= b
    else if reg == CORE_CLIP_TRUNCATE then 7 <= b || b == 5
    else if reg == DPU_OFFSET_PEND then 16 <= b
    else if reg == DPU_DST_SURF_STRIDE then 0 <= b <= 3
    else if reg == DPU_DATA_CUBE_WIDTH then 13 <= b
    else if reg == DPU_DATA_CUBE_HEIGHT then 25 <= b || 13 <= b <= 21
    else if reg == DPU_DATA_CUBE_NOTCH_ADDR then 29 <= b || 13 <= b <= 15
    else if reg == DPU_DATA_CUBE_CHANNEL then 29 <= b || 13 <= b <= 15
    else if reg == DPU_BS_CFG then 20 <= b || 9 <= b <= 15 || 2 <= b <= 3
    else if reg == DPU_BS_MUL_CFG then 14 <= b <= 15 || 2 <= b <= 7
    else if reg == DPU_BS_OW_CFG then 11 <= b <= 26
    else if reg == DPU_BS_OW_OP then 16 <= b
    else if reg == DPU_WDMA_SIZE_0 then 28 <= b || 13 <= b <= 15
    else if reg == DPU_WDMA_SIZE_1 then 29 <= b || 13 <= b <= 15
    else if reg == DPU_BN_CFG then 20 <= b || 9 <= b <= 15 || 2 <= b <= 3
    else if reg == DPU_BN_MUL_CFG then 14 <= b <= 15 || 2 <= b <= 7
    else if reg == DPU_EW_CFG then 24 <= b <= 27 || 11 <= b <= 15 || 3 <= b <= 4
    else if reg == DPU_OUT_CVT_SCALE then 17 <= b
    else if reg == DPU_OUT_CVT_SHIFT then 20 <= b <= 29
    else if reg == DPU_SURFACE_ADD then 0 <= b <= 3
    else if reg == DPU_LUT_ACCESS_CFG then 18 <= b || 10 <= b <= 15
    else if reg == DPU_LUT_ACCESS_DATA then 16 <= b
    else if reg == DPU_LUT_CFG then 8 <= b
    else if reg == DPU_LUT_INFO then 24 <= b || 0 <= b <= 7
    else if reg == DPU_LUT_LE_SLOPE_SHIFT then 10 <= b
    else if reg == DPU_LUT_LO_SLOPE_SHIFT then 10 <= b
    else if reg == 0x3000 then 18 <= b || 2 <= b <= 15
    else if reg == 0x3004 then 17 <= b || 6 <= b <= 15
    else if reg == 0x3008 then 1 <= b
    else if reg == 0x300C then 27 <= b
    else if reg == 0x4000 then 18 <= b || 2 <= b <= 15
    else if reg == 0x4008 then 1 <= b
    else false
  }

  /** Bit `b` of register `reg` lies in one of its other fields; neighbouring fields are joined. */
  predicate DescribedBit(reg: nat, b: nat)
    requires b < 32
  {
    if reg < 0x1000 then DescribedControlBit(reg, b)
    else if reg < 0x3000 then DescribedInputBit(reg, b) else DescribedOutputBit(reg, b)
  }

  predicate DescribedControlBit(reg: nat, b: nat) {
    if reg == 0x0008 then b == 0
    else if reg == 0x0010 then 4 <= b || b == 0
    else if reg == 0x0014 then b <= 15
    else if reg == 0x0020 then b <= 13
    else if reg == 0x0024 then b <= 13
    else if reg == 0x0028 then b <= 13
    else if reg == 0x002C then b <= 13
    else if reg == 0x0030 then b <= 13
    else if reg == 0x0034 then 4 <= b
    else if reg == 0x003C then b <= 27
    else WholeRegister(reg)
  }

  predicate DescribedInputBit(reg: nat, b: nat) {
    if reg == 0x1000 then 16 <= b <= 17 || b <= 1
    else if reg == 0x1004 then b == 16 || b <= 5
    else if reg == 0x1008 then b == 0
    else if reg == 0x100C then 29 <= b <= 30 || 12 <= b <= 16 || b <= 9
    else if reg == 0x1010 then 16 <= b <= 23 || 4 <= b <= 13 || b <= 2
    else if reg == 0x1014 then 28 <= b <= 30 || 16 <= b <= 25 || 8 <= b <= 13 || b <= 5
    else if reg == 0x1020 then 16 <= b <= 26 || b <= 10
    else if reg == 0x1024 then b <= 29
    else if reg == 0x1028 then b <= 10
    else if reg == 0x102C then b <= 23
    else if reg == 0x1034 then b <= 18
    else if reg == 0x1038 then 24 <= b <= 28 || 16 <= b <= 20 || b <= 13
    else if reg == 0x1040 then 12 <= b <= 13 || b <= 10
    else if reg == 0x1044 then b <= 13
    else if reg == 0x104C then b <= 27
    else if reg == 0x1060 then 16 <= b || b == 0
    else if reg == 0x1064 then b <= 16
    else if reg == 0x1068 then b <= 7
    else if reg == 0x1074 then b <= 16
    else if reg == 0x1078 then b == 31 || 16 <= b <= 19 || b <= 3
    else if reg == 0x107C then b <= 27
    else if reg == 0x1080 then b <= 27
    else if reg == 0x1084 then 16 <= b <= 29 || b <= 10
    else if reg == 0x1088 then b <= 15
    else if reg == 0x1090 then b == 4 || b <= 2
    else if reg == 0x1100 then b <= 3
    else WholeRegister(reg)
  }

  predicate DescribedOutputBit(reg: nat, b: nat) {
    if reg == 0x3000 then 16 <= b <= 17 || b <= 1
    else if reg == 0x3004 then b == 16 || b <= 5
    else if reg == 0x3008 then b == 0
    else if reg == 0x300C then b <= 26
    else if reg == 0x3010 then 14 <= b <= 19 || 8 <= b <= 10 || b <= 1
    else if reg == 0x3018 then b <= 15
    else if reg == 0x301C then b == 6 || b <= 4
    else if reg == 0x4000 then 16 <= b <= 17 || b <= 1
    else if reg == 0x4004 then b == 16 || b <= 5
    else if reg == 0x4008 then b == 0
    else if reg == 0x4014 then b <= 15
    else if reg == 0x4024 then 4 <= b
    else if reg == 0x4030 then b <= 12
    else if reg == 0x4034 then 22 <= b <= 24 || b <= 12
    else if reg == 0x4038 then 16 <= b <= 28 || b <= 12
    else if reg == 0x403C then 16 <= b <= 28 || b <= 12
    else if reg == 0x4040 then 16 <= b <= 19 || 4 <= b <= 8 || b <= 1
    else if reg == 0x4048 then 16 <= b || 8 <= b <= 13 || b <= 1
    else if reg == 0x4050 then 27 <= b || b <= 10
    else if reg == 0x4054 then b <= 15
    else if reg == 0x4058 then 16 <= b <= 27 || b <= 12
    else if reg == 0x405C then 16 <= b <= 28 || b <= 12
    else if reg == 0x4060 then 16 <= b <= 19 || 4 <= b <= 8 || b <= 1
    else if reg == 0x4068 then 16 <= b || 8 <= b <= 13 || b <= 1
    else if reg == 0x4070 then 28 <= b || 16 <= b <= 23 || 5 <= b <= 10 || b <= 2
    else if reg == 0x4084 then b <= 16
    else if reg == 0x4088 then 30 <= b || b <= 19
    else if reg == 0x40C0 then 4 <= b
    else if reg == 0x4100 then 16 <= b <= 17 || b <= 9
    else if reg == 0x4104 then b <= 15
    else if reg == 0x4108 then b <= 7
    else if reg == 0x410C then 8 <= b <= 23
    else if reg == 0x4124 then b <= 9
    else if reg == 0x412C then b <= 9
    else WholeRegister(reg)
  }

  /** The registers without a reserved field. */
  predicate WholeRegister(reg: nat) {
    && reg % 4 == 0
    && (reg <= 0x0004 || reg == 0x1030 || 0x1050 <= reg <= 0x105C || reg == 0x1070 || reg == 0x1104
        || reg == 0x1110 || 0x1140 <= reg <= 0x1184 || reg == 0x3014 || 0x400C <= reg <= 0x4010
        || reg == 0x4020 || reg == 0x4044 || reg == 0x404C || reg == 0x4064 || reg == 0x406C
        || 0x4074 <= reg <= 0x4080 || 0x4090 <= reg <= 0x40AC || 0x4110 <= reg <= 0x4120 || reg == 0x4128)
  }
}
