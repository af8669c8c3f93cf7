# librocket matmul: layouts, commands and the test that checks them

A model of the part of librocket that turns a matrix product into work for the RK3588 NPU, with proofs of
what that part guarantees. Four things are modelled:

* **Layouts.** `feature_data`, `weight_fp16` and `weight_int8` place the elements of a tensor in the slots of
  a tiled buffer. They are read as mixed-radix numbers (`MixedRadix`, `Layouts`, `WeightLayouts`); the proofs
  give their order, their inverse, and the exact alignment under which they are one-to-one.
* **The fp16 test's host side.** The CPU reference, the two packing loops and the comparison loop are
  imperative (`MatmulTest`). `BlockedMatmul` walks the packed buffers slot by slot, as the layout contract
  says a device may, and shows that every output entry is accumulated in the very order of the reference, so
  the result is the same for *any* arithmetic. `ExactSum` covers devices that add in some other order.
  `TestProgram` is the whole program linked with src/npu_matmul.c, around a device about which nothing is
  assumed; `MesaTest` is the same program linked with src/npu_matmul_mesa.c, as the Makefile builds it.
* **The command generator.** Bank allocation and descriptor arithmetic (`Generator`), the 108-command encoder
  (`Commands` is the list as data, `Encoder` the assignments), the register file that the commands leave
  behind (`RegisterFile`, `Task`; `TaskRegisters` and `CallRegisters` give all 104 registers as numbers, with
  literal offsets), its comparison with the Mesa register description (`MesaRegisters`,
  `Reserved`, `RoundTrip`), and what one call guarantees in the end (`MatmulTask`).
* **The Mesa command stream.** The 17 commands of `src/npu_matmul_mesa.c`, whose packing macro does not mask
  its parts (`MesaStream`).

`Bits` defines `&`, `|` and the shifts on integers, bit by bit; `Permutation` is about rearranged sequences.

## How the source is represented

* Integers are unbounded; C widths appear as the subset types of `Descriptors` and as explicit conversions
  (`U16`, `U32`, `I32`). `GenMatmul` computes as C does, with every truncation, and is proved to write
  `DescriptorsFor`. There the weight bytes, bank counts, data entries and strides are exact; m + 1, m - 1 and
  n - 1 are still reduced to the 16 bits of their members, which changes them exactly for m = 0, m = 65535 and
  n = 0 (`SixteenBitMembersIff`). Inside the computation the stride product passes through 2^32 for m < 4.
  Shifting a 3-bit code by 29 and a 16-bit channel by 16 is taken as an operation on 32-bit words.
* `GenMatmul` requires `m * k < 2^31`, since C forms that product in a signed `int`; the Mesa stream likewise
  requires `m * n < 2^30`.
* `gen_matmul_fp16` and `gen_matmul_int8` are the same assignments with different constants. They are one
  method with the precision as parameter; `GenMatmulFp16` and `GenMatmulInt8` state the two outcomes.
* The straight line of `gen_matmul_task` is cut into runs of slots (`EncodeConvolution`, ...), called in
  order, because a single method of 108 array writes is too large to verify at once. The body of `GenMatmul`
  starts from structures with arbitrary contents, so its proof also shows that every encoded member is set.
* The repository has two generators with the same function names. The Makefile (line 21) puts
  src/npu_matmul_mesa.c into the library, so the test that it builds has 17 commands and layout functions that
  return 0. The layouts, the bank allocation and the 108-command task are in src/npu_matmul.c, which the
  Makefile does not build. `TestProgram.RunTest` links the test with the latter, `MesaTest.RunTest` with the
  former.
* Reserved fields are given by their bit ranges; each RESERVED mask of the header is one such range.
* `memset` is a parallel assignment. Matrices in the test have the types `S` (operands) and `T` (sums), with
  the operations of `Arith`.
* The device of `TestProgram` is a function of the command words it is given and the two packed buffers.
  `RunTest` states the outcome for every device; that a device sweeps the buffers, or adds the same products
  in some other order, is an explicit premise.
* The triple loop of `matmul_fp32_cpu` is three methods, one per loop level.

## What the proofs show about the code

* `feature_data` fills [0, C*H*W) without gaps exactly when C2 divides C **or there is a single pixel**.
* Both weight layouts put N kernels of C channels one-to-one into N*C slots exactly when the channels are
  whole groups of 32 and the kernels are whole groups too (or C is 32), or for one kernel of at most 32
  channels.
* `weight_fp16` is one-to-one exactly when C is a multiple of 32, or there is one group of at most 16 kernels,
  or C is odd and at most 15 with at most 32 kernels. `weight_int8`: C a multiple of 32 or at most 32 kernels.
* Descriptors survive the encoder exactly for 1 <= m <= 1022, 1 <= n <= 8192 and 1 <= k <= 16384. The encoder
  writes 16 bits of DATAIN_CHANNEL_REAL where the description gives 14, and for fp16 only the -2 guard keeps
  that from spilling.
* The weight-bank count computed at src/npu_matmul.c:253-254 is overwritten. The weights of a successful call
  fit the banks they are given exactly when that count and the feature banks add up to at most 12
  (`WeightsFitIff`); 4 by 4096 by 4096 is an instance where they do not (`WeightsMayNotFit`).
* The largest sizes that the test accepts, and TESTING.md suggests, are refused with -1 by src/npu_matmul.c.
* A successful `gen_matmul_fp16` of src/npu_matmul.c returns 0, which the test takes for the number of command
  words: linked with that file, the test copies none of the words generated and hands the device an empty
  command list.
* The test that the Makefile builds hands the device all 17 commands, but of each matrix only the last element
  reaches it, and all comparisons read slot 0. Whatever the device does, that test passes exactly when every
  compared entry of the reference is the number in that slot.
* The Mesa stream has 17 commands (the repository's README.md counts 18). The 17-bit DPU register constants
  spill into the value: the DPU's disable command is the same word as its enable command, and no DPU command
  reaches a DPU register. The other commands keep reserved bits clear exactly for m < 2048, n < 16384 and a
  weights address below 2^17.
* The comparison loop never looks at the last column.

## Model

| member | source | states |
|---|---|---|
| Layouts.FeatureOrder | src/npu_matmul.c:481-488 | for all C, H, W, C2 >= 1, slots are ordered as (plane, row, column, offset in plane) and distinct elements have distinct slots |
| Layouts.FeatureStrides | src/npu_matmul.c:481-488 | slot 0 comes first; one offset, column, row or plane further is 1, C2, W*C2 or H*W*C2 slots further |
| Layouts.FeatureRange | src/npu_matmul.c:481-488 | slots lie below ceil(C/C2)*C2*H*W, and an explicit div/mod inverse recovers the element |
| Layouts.FeatureHit | src/npu_matmul.c:481-488 | a slot is used exactly when the channel that owns it is at most C |
| Layouts.FeatureTail | src/npu_matmul.c:481-488 | in the padded tensor the unused slots are exactly the tail offsets of the last plane |
| Layouts.FeatureDense | src/npu_matmul.c:481-488 | all slots lie in [0, C*H*W), and all of those are used, exactly when C2 divides C or H*W is 1 |
| Layouts.FeatureIndexIff | src/npu_matmul.c:481-488 | for all C, H, W, C2, every intermediate of every index of the tensor is in int range exactly when the last slot is |
| Layouts.FeatureIndexInt | src/npu_matmul.c:481-488 | without padding, C*H*W in int range is enough |
| WeightLayouts.Fp16Strides | src/npu_matmul.c:490-497 | for every C: slot 0 comes first; strides 1 and 32 inside a group, 512 to the next channel group, 16*C to the next kernel group |
| WeightLayouts.Int8Strides | src/npu_matmul.c:499-506 | the same with 1, 32, 1024 and 32*C |
| WeightLayouts.WeightOrder | src/npu_matmul.c:490-506 | with C a multiple of 32, slots are ordered lexicographically by kernel group, channel group, kernel and channel, without collisions |
| WeightLayouts.WeightBijection | src/npu_matmul.c:490-506 | with N a multiple of the group size as well, the layout is a bijection onto [0, N*C), inverse given |
| WeightLayouts.WeightDense | src/npu_matmul.c:490-506 | exact condition, for every C and N and both functions, for the slots to be distinct and all below N*C |
| WeightLayouts.SlotsDistinctIff | src/npu_matmul.c:490-506 | exact condition for the layout to be one-to-one, for every C and N |
| WeightLayouts.PairCollides | src/npu_matmul.c:490-497 | a colliding pair of weights for every residue of C |
| WeightLayouts.Int8InjectiveIff | src/npu_matmul.c:499-506 | int8: one-to-one exactly when C is a multiple of 32 or there are at most 32 kernels |
| WeightLayouts.Fp16InjectiveIff | src/npu_matmul.c:490-497 | fp16: the exact condition, including the odd narrow case |
| WeightLayouts.WeightIndexIff | src/npu_matmul.c:490-506 | for both functions, all C and all weights, every intermediate of the index is in int range exactly when the index is |
| WeightLayouts.WeightIndexInt | src/npu_matmul.c:490-506 | if N kernels fit N*C slots, N*C in int range is enough |
| MatmulTest.MatmulCpu | tests/matmul_fp16_rocket.c:30-41 | dst is the row-major product of A and the transpose of B, each entry summed from the first index to the last; nothing else is written |
| MatmulTest.PackWeights | tests/matmul_fp16_rocket.c:142-149 | the whole weight buffer is the rearranged matrix, no slot left at zero |
| MatmulTest.PackedWeightAt | tests/matmul_fp16_rocket.c:145-149 | slot weight_fp16(K,n,k) holds matrixB[(n-1)*K+(k-1)] |
| MatmulTest.WeightSourceOfSlot | tests/matmul_fp16_rocket.c:145-149 | both indices of the assignment are in bounds, and the slot tells the matrix element: distinct elements go to distinct slots, so no write is overwritten |
| MatmulTest.WeightSourceInjective | tests/matmul_fp16_rocket.c:145-149 | no two slots are filled from one matrix element |
| MatmulTest.PackedWeightsPermute | tests/matmul_fp16_rocket.c:142-149 | packed buffer and matrix hold the same elements, with multiplicity |
| MatmulTest.PackInput | tests/matmul_fp16_rocket.c:151-158 | the whole input buffer is the rearranged matrix |
| MatmulTest.PackedInputAt | tests/matmul_fp16_rocket.c:154-158 | gathering through feature_data after packing returns A; all indices are in bounds |
| MatmulTest.PackedInputPermutes | tests/matmul_fp16_rocket.c:151-158 | packed input and matrix hold the same elements, with multiplicity |
| MatmulTest.FeatureSourceOfSlot | tests/matmul_fp16_rocket.c:198-201 | the indices of the gather stay inside the buffers and invert the layout |
| MatmulTest.DimsAreDense | src/npu_matmul.c:481-497 | the dimensions asked of the packing loops are the ones for which the layouts fill the buffers |
| MatmulTest.MismatchesAre | tests/matmul_fp16_rocket.c:198-202 | an entry counts exactly when it is in a visited column and output slot feature_data(N,M,1,4,n,m,1) differs from expected_result[(m-1)*N+(n-1)] |
| MatmulTest.Verify | tests/matmul_fp16_rocket.c:194-210 | the error count is the number of differing entries in all columns but the last |
| MatmulTest.PassesIff | tests/matmul_fp16_rocket.c:194-218 | the test passes exactly when every column but the last is right |
| MatmulTest.UnreadSlots | tests/matmul_fp16_rocket.c:198-200 | the output slots never read are exactly the M slots of the last column |
| MatmulTest.BlindToLastColumn | tests/matmul_fp16_rocket.c:198-210 | outputs that differ only in the last column give the same mismatches |
| BlockedMatmul.DimsFromAlignment | tests/matmul_fp16_rocket.c:67-79 | K a multiple of 32 and N of 16 is all the alignment the packed buffers need |
| BlockedMatmul.SweepInvariant | src/npu_matmul.c:481-497 | at every step of the sweep each entry holds the sum of its first products, in order |
| BlockedMatmul.BlockedRefinesReference | tests/matmul_fp16_rocket.c:30-41 | after the sweep every output slot holds the reference entry, for any arithmetic |
| BlockedMatmul.TestPasses | tests/matmul_fp16_rocket.c:142-218 | with the reference loop's result as expectation, the comparison of the swept output finds no error |
| TestProgram.RunTest | tests/matmul_fp16_rocket.c:67-218 | linked with src/npu_matmul.c: refused sizes (given by value), -1 exactly for other sizes with m*k > 180224, otherwise a task is generated, 0 of its words are copied, and the error count is that of the device's output without commands against the reference; none for a sweeping device |
| TestProgram.RunIntegerTest | tests/matmul_fp16_rocket.c:133-218 | the same program on operands 0 to 10 finds no error on a device that adds the packed products of each compared entry in some order and grouping |
| TestProgram.AddingSomehowPasses | tests/matmul_fp16_rocket.c:133-218 | for such a device no entry of the output mismatches the reference |
| MesaTest.PackedEqualIff | src/npu_matmul_mesa.c:160-168 | two matrices of one size are packed alike exactly when their last elements are equal |
| MesaTest.DeviceSeesLastElements | tests/matmul_fp16_rocket.c:142-158 | what the device returns depends on the operands through their last elements only |
| MesaTest.PackThroughStub | src/npu_matmul_mesa.c:160-168 | both packing loops leave the last matrix element in slot 0 and zeros elsewhere |
| MesaTest.RunTest | tests/matmul_fp16_rocket.c:67-218 | linked with src/npu_matmul_mesa.c: no accepted size fails, the 17 commands reach the device, and the error count is that of slot 0 of its output against every compared entry |
| MesaTest.PassesThroughStubIff | tests/matmul_fp16_rocket.c:194-218 | that program passes exactly when every compared entry of the reference equals the number in output slot 0 |
| MesaTest.NoDevicePasses | tests/matmul_fp16_rocket.c:194-218 | two different compared reference entries mean an error, whatever the device returns |
| ExactSum.TreeIsExact | tests/matmul_fp16_rocket.c:35-38 | any subset of bounded terms, added in any order and grouping, is exact as long as it cannot pass 2^24 |
| ExactSum.EveryOrderIsATree | tests/matmul_fp16_rocket.c:35-38 | adding the terms one by one in any order is one of the trees |
| ExactSum.OrderIndependent | tests/matmul_fp16_rocket.c:35-38 | adding all terms once gives their integer sum whatever the order and grouping |
| ExactSum.DotIsExact | tests/matmul_fp16_rocket.c:34-38 | the reference's float sum is the integer dot product, for operands 0 to 10 and K <= 4096 |
| ExactSum.AnyGroupingMatchesReference | tests/matmul_fp16_rocket.c:133-140 | a device that adds the products read from the packed buffers in any order gets the reference value, which justifies comparing with != |
| ExactSum.AnyGroupingPasses | tests/matmul_fp16_rocket.c:194-218 | if every compared slot was summed in some order and grouping, the comparison finds no error |
| Bits.MaskIsModulo | include/npu_hw.h:168 | masking with ones is reduction modulo a power of two, also for negative values |
| Bits.PackBit | src/npu_matmul.c:46-190 | a bit of a packed register value is set exactly when some field supplies it |
| Bits.ExtractPackWide | include/mesa_registers.h:573-591 | reading bits where no other field reaches gives the field's masked value |
| RegisterFile.DecodeNpuOp | include/npu_hw.h:168 | decoding NPUOP returns operation, register and value modulo 2^16, 2^16 and 2^32, and the word has 64 bits |
| RegisterFile.NpuOpIsNumber | include/npu_hw.h:168 | the word is operation * 2^48 + value * 2^16 + register, each part modulo its width |
| RegisterFile.DecodeIsDivision | include/npu_hw.h:168 | decoding is division and remainder by powers of two, for every word |
| RegisterFile.LastWriteWins | src/npu_matmul.c:45-200 | for any list a register holds the value of its last write |
| RegisterFile.RunLookup | src/npu_matmul.c:45-200 | when no register repeats, the register file holds exactly the writes of the list |
| RegisterFile.OrderDoesNotMatter | src/npu_matmul.c:45-200 | rearranging writes to distinct registers leaves the same register file |
| Encoder.GenMatmulTask | src/npu_matmul.c:41-205 | slots 0 to 107 hold the command list of the descriptors, slots 104 to 107 are these four words, later slots are untouched |
| TaskRegisters.NoOtherRegisters | src/npu_matmul.c:45-200 | a task writes 104 registers, which are the ones listed below |
| TaskRegisters.SizeRegisters | src/npu_matmul.c:46-60 | convolution and tensor-size registers, as numbers in the members, for all descriptors |
| TaskRegisters.WeightRegisters | src/npu_matmul.c:61-81 | weight, bank and conversion registers, likewise |
| TaskRegisters.DmaRegisters | src/npu_matmul.c:82-103 | padding, address, burst, stride and DMA registers, likewise |
| TaskRegisters.OutputRegisters | src/npu_matmul.c:122-146 | accumulator, mode, format, address, stride and cube registers, likewise, and DPU 0x4004 holds 0xE |
| TaskRegisters.StageRegisters | src/npu_matmul.c:147-187 | stage, write-DMA and output-conversion registers, likewise, and DPU 0x4078 holds 1 |
| TaskRegisters.ClearedInputRegisters | src/npu_matmul.c:101-129 | the decompression amounts and the other cleared CNA and CORE registers hold 0 |
| TaskRegisters.ClearedStageRegisters | src/npu_matmul.c:136-166 | the cleared offset and stage registers hold 0 |
| TaskRegisters.ClearedOperandRegisters | src/npu_matmul.c:171-200 | the cleared operand and table registers hold 0 |
| Task.TaskKeysDistinct | src/npu_matmul.c:45-200 | none of the 104 register writes hits a register twice |
| Task.TaskOrderFree | src/npu_matmul.c:45-200 | for all descriptors any permutation of the 104 writes gives the same register file |
| Task.FieldsShaped | src/npu_matmul.c:46-190 | the fields of a register never share a bit and lie within 32 bits |
| Task.RegisterValue | src/npu_matmul.c:45-200 | after the task each register holds the value packed for it |
| Reserved.BitsPartition | include/mesa_registers.h:65-2660 | in every known register of the four blocks each bit is reserved or described and not both; targets go by offset range |
| Reserved.TargetAgrees | include/mesa_registers.h:4451-4854 | each write is addressed to the block that owns the register, up to bit 0; only CORE_3030 and DPU_40C4 are unknown |
| Reserved.FieldsAvoidReserved | include/mesa_registers.h:367-2641 | every field but DATAIN_CHANNEL_REAL stays clear of reserved bits for all descriptors |
| Reserved.ReservedClearIff | include/mesa_registers.h:573-591 | reserved bits are all clear exactly for channel counts 1 to 16384 |
| RoundTrip.FieldRoundTrip | src/npu_matmul.c:45-200 | any field of any descriptors is read back exactly when it fits its width |
| RoundTrip.StrideReads | src/npu_matmul.c:95-96 | surf_stride comes back by 28-bit sign extension exactly when it lies in that range |
| RoundTrip.TaskRoundTrip | src/npu_matmul.c:41-200 | all members, read at the positions of the register description, come back exactly when all fit |
| RoundTrip.RecoveredUnique | src/npu_matmul.c:41-200 | at most one triple of descriptors is recovered by a register file: the reading leaves out no member |
| RoundTrip.FittingTasksDistinct | src/npu_matmul.c:41-200 | among descriptors whose members fit, equal register files mean equal descriptors |
| Generator.GenMatmul | src/npu_matmul.c:216-345 | return value, task contents and untouched slots; weight bytes, bank counts, entries and strides end exact, while feature_grains, dataout_height and dataout_channel are reduced modulo 2^16 (SixteenBitMembersIff) |
| MatmulTask.GenMatmulFp16 | src/npu_matmul.c:216-345 | -1 exactly for m*k > 180224, -2 exactly for k > 16384 otherwise, else 0 with the task written |
| MatmulTask.GenMatmulInt8 | src/npu_matmul.c:356-479 | the same with 360448 and 32768 |
| CallRegisters.SizesOfCall | src/npu_matmul.c:227-244 | after a successful call, for all sizes: convolution and tensor-size registers by value |
| CallRegisters.WeightsOfCall | src/npu_matmul.c:242-276 | weight bytes, kernels, bank split, data entries and conversion registers by value |
| CallRegisters.DmaOfCall | src/npu_matmul.c:277-292 | addresses, bursts, line and surface stride and DMA sizes by value |
| CallRegisters.OutputOfCall | src/npu_matmul.c:294-311 | accumulator, output format, address, stride and cube by value, for both precisions and both output formats |
| CallRegisters.StagesOfCall | src/npu_matmul.c:311-340 | all stages bypassed, size codes, write DMA and surface add by value |
| MatmulTask.SixteenBitMembersIff | src/npu_matmul.c:232-296 | on a successful call feature_grains, dataout_height and dataout_channel hold m+1, m-1 and n-1 exactly for 1 <= m <= 65534 and n >= 1; the DPU copies follow them |
| MatmulTask.BankSplit | src/npu_matmul.c:246-266 | least number of data banks, all others for weights and at least one, one kernel fits a bank, weight_bytes exact and below 2^31 |
| MatmulTask.EntriesAndStride | src/npu_matmul.c:267-288 | least number of data entries covering k; surface stride per four rows, -3 below four |
| MatmulTask.WeightsFitIff | src/npu_matmul.c:253-265 | all weights fit the banks they are given exactly when feature banks and the discarded weight-bank count add up to at most 12 |
| MatmulTask.GeneratedRoundTrip | src/npu_matmul.c:216-345 | generated descriptors are recovered exactly for 1 <= m <= 1022, 1 <= n <= 8192, 1 <= k <= 16384 |
| MatmulTask.RegistersMeanCall | src/npu_matmul.c:227-344 | after a successful call in that range the registers hold the three addresses, the m, k, n sizes, the weight bytes and a bank split of 12, each at its described position |
| MatmulTask.RegistersMeanFormat | src/npu_matmul.c:285-340 | output precision 5, 2 or 4 by kind of call, size codes one less than 4, 2 or 8, surface add m times that, repeated sizes, precisions and strides agree |
| MatmulTask.FirstLosses | src/npu_matmul.c:49-50 | m = 1023 makes the feature grains read 0, n = 8193 the output channel |
| MatmulTask.GeneratedReserved | src/npu_matmul.c:258-262 | reserved bits clear exactly for 1 <= k <= 16384; for fp16 the guard gives the upper bound |
| MatmulTask.EnableIsLast | src/npu_matmul.c:201-204 | slot 107 is the only enable command, with value 0xD |
| MatmulTask.AcceptedMeans | tests/matmul_fp16_rocket.c:67-79 | within the maximum sizes the three checks hold exactly when the surface stride is m-4, the data entries are full and weights of any aligned channel count fit their buffer |
| MatmulTask.AcceptedSizes | tests/matmul_fp16_rocket.c:67-128 | for accepted sizes only -1 can fail, and success implies full recovery and clear reserved bits |
| MatmulTask.LargestAcceptedIsRefused | tests/matmul_fp16_rocket.c:19-21 | the largest accepted sizes are refused |
| MesaStream.MesaRoundTrip | src/npu_matmul_mesa.c:14-15 | MESA_REGCMD round-trips exactly when its arguments fit 16, 32 and 16 bits |
| MesaStream.WideRegister | src/npu_matmul_mesa.c:43-47 | a 17-bit register decodes to its low 16 bits and forces bit 0 of the value to 1 |
| MesaStream.GenMatmulFp16Stream | src/npu_matmul_mesa.c:70-140 | 17 commands with these targets, registers and values, count returned, other slots untouched |
| MesaStream.StreamWrites | src/npu_matmul_mesa.c:79-136 | the 17 writes that the commands decode to, in order and by value |
| MesaStream.StreamMeansCall | src/npu_matmul_mesa.c:79-136 | the register file after the stream: sizes, addresses, strides with bit 0 set, PC and CNA disabled, DPU enable register 1 |
| MesaStream.StreamDecodes | src/npu_matmul_mesa.c:79-136 | PC and CNA commands decode to what was meant, DPU commands to a shifted register and an odd value |
| MesaStream.DisableIsEnable | src/npu_matmul_mesa.c:131-134 | the DPU disable command is the same word as the enable command and decodes to enable |
| MesaStream.DpuCommandsMissTheDpu | include/mesa_registers.h:4451-4854 | no DPU command addresses a DPU register |
| MesaStream.StreamReservedIff | src/npu_matmul_mesa.c:79-136 | PC and CNA commands keep all reserved bits clear exactly for m < 2048, n < 16384 and a weights address below 2^17 |
| MesaStream.WeightsAddressReserved | src/npu_matmul_mesa.c:117-118 | the weights address keeps reserved bits clear only below 2^17 |

## Left out

- MesaRegisters.TargetOf: offsets of 0x5000 and above (DPU_RDMA, PPU, DDMA, SDMA, GLOBAL) are not part of this model; no generator writes them.
- npu_cna_desc.enable is never set or encoded, and dataout_height is a local variable here since it is not encoded from that structure.
- Layouts.FeatureData: requires C2 != 0, since C divides by it.
- What the NPU does with registers and buffers: only the layout contract and a register file of last writes are modelled.
- fp16 and fp32 rounding: addition and multiplication are arbitrary (`Arith`), or exact on small integers (`ExactSum`).
- The four-command int8 stub of src/npu_matmul_mesa.c: nothing to prove.
- src/npu_matmul_full.c: it uses registers that include/mesa_registers.h does not define.
- Device access, buffer allocation and synchronisation, argument parsing, printing, random data, the small test programs and the kernel patch.
- The names of register fields that no generator writes (their bits are described, neighbouring fields joined), and include/mesa_helpers.h, which repeats the same shift-and-mask shape.
