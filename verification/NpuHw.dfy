/** Register offsets, operation codes, CBUF sizes and precision codes of include/npu_hw.h. */
module NpuHw {
  const PC_OPERATION_ENABLE := 0x0008
  const PC_REGISTER_AMOUNTS := 0x0014

  const CNA_CONV_CON1 := 0x100C
  const CNA_CONV_CON2 := 0x1010
  const CNA_CONV_CON3 := 0x1014
  const CNA_DATA_SIZE0 := 0x1020
  const CNA_DATA_SIZE1 := 0x1024
  const CNA_DATA_SIZE2 := 0x1028
  const CNA_DATA_SIZE3 := 0x102C
  const CNA_WEIGHT_SIZE0 := 0x1030
  const CNA_WEIGHT_SIZE1 := 0x1034
  const CNA_WEIGHT_SIZE2 := 0x1038
  const CNA_CBUF_CON0 := 0x1040
  const CNA_CBUF_CON1 := 0x1044
  const CNA_CVT_CON0 := 0x104C
  const CNA_CVT_CON1 := 0x1050
  const CNA_CVT_CON2 := 0x1054
  const CNA_CVT_CON3 := 0x1058
  const CNA_CVT_CON4 := 0x105C
  const CNA_FC_CON0 := 0x1060
  const CNA_FC_CON1 := 0x1064
  const CNA_PAD_CON0 := 0x1068
  const CNA_FEATURE_DATA_ADDR := 0x1070
  const CNA_FC_CON2 := 0x1074
  const CNA_DMA_CON0 := 0x1078
  const CNA_DMA_CON1 := 0x107C
  const CNA_DMA_CON2 := 0x1080
  const CNA_FC_DATA_SIZE0 := 0x1084
  const CNA_FC_DATA_SIZE1 := 0x1088
  const CNA_DCOMP_CTRL := 0x1100
  const CNA_DCOMP_REGNUM := 0x1104
  const CNA_DCOMP_ADDR0 := 0x1110
  const CNA_DCOMP_AMOUNT := 0x1140
  const CNA_DCOMP_AMOUNT1 := 0x1144
  const CNA_DCOMP_AMOUNT2 := 0x1148
  const CNA_DCOMP_AMOUNT3 := 0x114C
  const CNA_DCOMP_AMOUNT4 := 0x1150
  const CNA_DCOMP_AMOUNT5 := 0x1154
  const CNA_DCOMP_AMOUNT6 := 0x1158
  const CNA_DCOMP_AMOUNT7 := 0x115C
  const CNA_DCOMP_AMOUNT8 := 0x1160
  const CNA_DCOMP_AMOUNT9 := 0x1164
  const CNA_DCOMP_AMOUNT10 := 0x1168
  const CNA_DCOMP_AMOUNT11 := 0x116C
  const CNA_DCOMP_AMOUNT12 := 0x1170
  const CNA_DCOMP_AMOUNT13 := 0x1174
  const CNA_DCOMP_AMOUNT14 := 0x1178
  const CNA_DCOMP_AMOUNT15 := 0x117C
  const CNA_CVT_CON5 := 0x1180
  const CNA_PAD_CON1 := 0x1184

  const CORE_MISC_CFG := 0x3010
  const CORE_DATAOUT_SIZE_0 := 0x3014
  const CORE_DATAOUT_SIZE_1 := 0x3018
  const CORE_CLIP_TRUNCATE := 0x301C
  const CORE_3030 := 0x3030

  const DPU_S_POINTER := 0x4004
  const DPU_FEATURE_MODE_CFG := 0x400C
  const DPU_DATA_FORMAT := 0x4010
  const DPU_OFFSET_PEND := 0x4014
  const DPU_DST_BASE_ADD := 0x4020
  const DPU_DST_SURF_STRIDE := 0x4024
  const DPU_DATA_CUBE_WIDTH := 0x4030
  const DPU_DATA_CUBE_HEIGHT := 0x4034
  const DPU_DATA_CUBE_NOTCH_ADDR := 0x4038
  const DPU_DATA_CUBE_CHANNEL := 0x403C
  const DPU_BS_CFG := 0x4040
  const DPU_BS_ALU_CFG := 0x4044
  const DPU_BS_MUL_CFG := 0x4048
  const DPU_BS_RELUX_CMP_VALUE := 0x404C
  const DPU_BS_OW_CFG := 0x4050
  const DPU_BS_OW_OP := 0x4054
  const DPU_WDMA_SIZE_0 := 0x4058
  const DPU_WDMA_SIZE_1 := 0x405C
  const DPU_BN_CFG := 0x4060
  const DPU_BN_ALU_CFG := 0x4064
  const DPU_BN_MUL_CFG := 0x4068
  const DPU_BN_RELUX_CMP_VALUE := 0x406C
  const DPU_EW_CFG := 0x4070
  const DPU_EW_CVT_OFFSET_VALUE := 0x4074
  const DPU_EW_CVT_SCALE_VALUE := 0x4078
  const DPU_EW_RELUX_CMP_VALUE := 0x407C
  const DPU_OUT_CVT_OFFSET := 0x4080
  const DPU_OUT_CVT_SCALE := 0x4084
  const DPU_OUT_CVT_SHIFT := 0x4088
  const DPU_EW_OP_VALUE_0 := 0x4090
  const DPU_EW_OP_VALUE_1 := 0x4094
  const DPU_EW_OP_VALUE_2 := 0x4098
  const DPU_EW_OP_VALUE_3 := 0x409C
  const DPU_EW_OP_VALUE_4 := 0x40A0
  const DPU_EW_OP_VALUE_5 := 0x40A4
  const DPU_EW_OP_VALUE_6 := 0x40A8
  const DPU_EW_OP_VALUE_7 := 0x40AC
  const DPU_SURFACE_ADD := 0x40C0
  const DPU_40C4 := 0x40C4
  const DPU_LUT_ACCESS_CFG := 0x4100
  const DPU_LUT_ACCESS_DATA := 0x4104
  const DPU_LUT_CFG := 0x4108
  const DPU_LUT_INFO := 0x410C
  const DPU_LUT_LE_START := 0x4110
  const DPU_LUT_LE_END := 0x4114
  const DPU_LUT_LO_START := 0x4118
  const DPU_LUT_LO_END := 0x411C
  const DPU_LUT_LE_SLOPE_SCALE := 0x4120
  const DPU_LUT_LE_SLOPE_SHIFT := 0x4124
  const DPU_LUT_LO_SLOPE_SCALE := 0x4128
  const DPU_LUT_LO_SLOPE_SHIFT := 0x412C

  const OP_REG_PC := 0x0101
  const OP_REG_CNA := 0x0201
  const OP_REG_CORE := 0x0801
  const OP_REG_DPU := 0x1001
  const OP_40 := 0x0041
  const OP_ENABLE := 0x0081
  const OP_NONE := 0x0000

  const PC_ENABLE := 0x01
  const PC_ENABLE_CNA := 0x04
  const PC_ENABLE_DPU := 0x08

  const NPU_CBUF_BANK_SIZE := 32768
  const NPU_CBUF_BANKS := 12

  const DIRECT_CONVOLUTION := 0
  const PRECISION_INT8 := 0
  const PRECISION_FLOAT16 := 2
  const PRECISION_INT32 := 4
  const PRECISION_FLOAT32 := 5
}
