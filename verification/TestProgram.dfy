/** The fp16 test program linked with src/npu_matmul.c: size checks, command generation, the copy of the
    commands, the layout loops, the device and the comparison. The Makefile links the program with
    src/npu_matmul_mesa.c instead; `MesaTest` is about that pair. */
module TestProgram {
  import opened Descriptors
  import opened Commands
  import opened Encoder
  import opened WeightLayouts
  import opened Generator
  import opened MatmulTask
  import opened MatmulTest
  import opened BlockedMatmul
  import opened Permutation
  import opened ExactSum

  /** How the program ends. */
  datatype Outcome =
    | SizesRefused
    | GenerationFailed(ret: int)
    | Compared(copied: nat, errors: nat)

  /** A device: from the command words it is given, the input and the weights to the output buffer.
      Nothing is assumed about it but the size of that buffer. */
  type Device<!S, !T> = (seq<nat>, seq<S>, seq<S>) -> seq<T>

  ghost predicate FillsOutput<S(!new), T(!new)>(device: Device<S, T>, M: nat, K: nat, N: nat) {
    forall words, x, w :: |x| == M * K && |w| == N * K ==> |device(words, x, w)| == M * N
  }

  function Reference<S, T>(ar: Arith<S, T>, M: nat, K: nat, N: nat, A: seq<S>, B: seq<S>): seq<T>
    requires |A| == M * K && |B| == N * K
  {
    seq(M * N, p requires 0 <= p < M * N => ProductAt(ar, M, K, N, A, B, p))
  }

  /** The device contract under which the comparison passes: it sweeps the packed buffers, whatever
      commands it is given. */
  ghost predicate Sweeps<S(!new), T(!new)>(device: Device<S, T>, ar: Arith<S, T>, M: nat, K: nat, N: nat)
    requires Dims(M, K, N)
  {
    forall words, x, w :: |x| == M * K && |w| == N * K ==> device(words, x, w) == Sweep(ar, M, K, N, x, w, N * K, 0)
  }

  /** The loops of the test, with the device run on the `words` that were copied. */
  method CompareOnDevice<S(0,!new), T(0,==,!new)>(ar: Arith<S, T>, zero: S, device: Device<S, T>, words: seq<nat>,
                                                  M: nat, K: nat, N: nat, matrixA: array<S>, matrixB: array<S>)
    returns (errors: nat)
    requires Dims(M, K, N) && FillsOutput(device, M, K, N)
    requires matrixA.Length >= M * K && matrixB.Length >= N * K
    ensures var A, B := matrixA[..M * K], matrixB[..N * K];
            errors == |Mismatches(M, N, device(words, PackedInput(M, K, A), PackedWeights(K, N, B)),
                                  Reference(ar, M, K, N, A, B))|
  {
    hide PackedWeights, PackedInput, Mismatches, ProductAt;
    var weights := new S[N * K];
    PackWeights(K, N, matrixB, weights, zero);
    var input := new S[M * K];
    PackInput(M, K, matrixA, input, zero);
    var expected := new T[M * N];
    MatmulCpu(ar, M, K, N, matrixA, matrixB, expected);
    var result := device(words, input[..], weights[..]);
    var output := new T[M * N](i requires 0 <= i < M * N => result[i]);
    assert output[..] == result;
    PackedPrefix(M, K, N, matrixA[..], matrixB[..]);
    ReferencePrefix(ar, M, K, N, matrixA[..], matrixB[..], expected[..]);
    assert matrixA[..][..M * K] == matrixA[..M * K] && matrixB[..][..N * K] == matrixB[..N * K];
    errors := Verify(M, N, output, expected);
  }

  /** Only the first M*K and N*K elements of the operand arrays matter. */
  lemma PackedPrefix<S>(M: nat, K: nat, N: nat, A: seq<S>, B: seq<S>)
    requires Dims(M, K, N) && |A| >= M * K && |B| >= N * K
    ensures PackedInput(M, K, A) == PackedInput(M, K, A[..M * K])
    ensures PackedWeights(K, N, B) == PackedWeights(K, N, B[..N * K])
  {
  }

  lemma ReferencePrefix<S, T>(ar: Arith<S, T>, M: nat, K: nat, N: nat, A: seq<S>, B: seq<S>, expected: seq<T>)
    requires |A| >= M * K && |B| >= N * K && |expected| == M * N
    requires forall p :: 0 <= p < M * N ==> expected[p] == ProductAt(ar, M, K, N, A, B, p)
    ensures expected == Reference(ar, M, K, N, A[..M * K], B[..N * K])
  {
    hide Dot;
    forall p | 0 <= p < M * N
      ensures ProductAt(ar, M, K, N, A, B, p) == ProductAt(ar, M, K, N, A[..M * K], B[..N * K], p)
    {
      LinearIndex(p, M, N);
      assert Row(A, M, K, p / N) == Row(A[..M * K], M, K, p / N);
      assert Row(B, N, K, p % N) == Row(B[..N * K], N, K, p % N);
    }
  }

  /** memcpy of `count` words. */
  method CopyWords(to: array<nat>, from: array<nat>, count: nat)
    requires count <= to.Length && count <= from.Length && to != from
    modifies to
    ensures to[..] == from[..count] + old(to[count..])
  {
    forall i | 0 <= i < count {
      to[i] := from[i];
    }
  }

  /** The program linked with src/npu_matmul.c. The generator's return value is taken for the number of
      command words, so a successful generation copies none of the words it wrote, and the device is
      given no command. */
  method RunTest<S(0,!new), T(0,==,!new)>(ar: Arith<S, T>, zero: S, device: Device<S, T>, M: u32, K: u32, N: u32,
                                          inputDma: u32, weightsDma: u32, outputDma: u32,
                                          matrixA: array<S>, matrixB: array<S>,
                                          npuRegs: array<nat>, regcmd: array<nat>)
    returns (outcome: Outcome)
    requires Accepted(M, K, N) ==> matrixA.Length >= M * K && matrixB.Length >= N * K
    requires npuRegs.Length == 112 == regcmd.Length && npuRegs != regcmd
    requires npuRegs as object != matrixA && npuRegs as object != matrixB
    requires regcmd as object != matrixA && regcmd as object != matrixB
    requires FillsOutput(device, M, K, N)
    modifies npuRegs, regcmd
    ensures outcome.SizesRefused? <==> !(&& 1 <= M <= 384 && (M == 1 || M % 4 == 0)
                                         && 1 <= K <= 4096 && K % 32 == 0
                                         && 1 <= N <= 4096 && N % 16 == 0)
    ensures outcome.GenerationFailed? <==> !outcome.SizesRefused? && M * K > 180224
    ensures outcome.GenerationFailed? ==> outcome.ret == -1
    ensures outcome.Compared? ==>
              && outcome.copied == 0
              && var p := Params(M, K, N, inputDma, weightsDma, outputDma, 0);
                 ResultOf(Fp16, p) == 0 && Encoded(npuRegs, DescriptorsFor(Fp16, p), 0, TASK_LENGTH)
    ensures outcome.Compared? ==>
              && Dims(M, K, N)
              && var A, B := matrixA[..M * K], matrixB[..N * K];
                 outcome.errors == |Mismatches(M, N, device([], PackedInput(M, K, A), PackedWeights(K, N, B)),
                                               Reference(ar, M, K, N, A, B))|
    ensures outcome.Compared? && Sweeps(device, ar, M, K, N) ==> outcome.errors == 0
    ensures regcmd[..] == old(regcmd[..])
  {
    if !Accepted(M, K, N) {
      return SizesRefused;
    }
    hide Encoded, ResultOf, DescriptorsFor, PackedWeights, PackedInput, Mismatches, ProductAt, Sweep;
    AcceptedProduct(M, K, N);
    DimsFromAlignment(M, K, N);
    var p := Params(M, K, N, inputDma, weightsDma, outputDma, 0);
    var ret := GenMatmulFp16(p, npuRegs);
    if ret < 0 {
      return GenerationFailed(ret);
    }
    var numCommands := ret;
    CopyWords(regcmd, npuRegs, numCommands);
    assert regcmd[..] == old(regcmd[..]);
    var errors := CompareOnDevice(ar, zero, device, regcmd[..numCommands], M, K, N, matrixA, matrixB);
    SweepPasses(ar, device, M, K, N, matrixA[..M * K], matrixB[..N * K]);
    assert regcmd[..0] == [];
    outcome := Compared(numCommands, errors);
  }

  lemma AcceptedProduct(M: int, K: int, N: int)
    requires Accepted(M, K, N)
    ensures 0 < M < 0x1_0000 && 0 < K <= 16384 && 0 < N < 0x1_0000 && 0 <= M * K < 0x8000_0000
  {
    SmallProduct(M, K);
  }

  lemma SmallProduct(M: int, K: int)
    requires 0 <= M <= MAX_M && 0 <= K <= MAX_K
    ensures 0 <= M * K <= MAX_M * MAX_K
  {
    assert 0 <= M * K <= MAX_M * K;
  }

  lemma SweepPasses<S(!new), T(!new)>(ar: Arith<S, T>, device: Device<S, T>, M: nat, K: nat, N: nat,
                                       A: seq<S>, B: seq<S>)
    requires Dims(M, K, N) && |A| == M * K && |B| == N * K && FillsOutput(device, M, K, N)
    ensures Sweeps(device, ar, M, K, N) ==>
              var output := device([], PackedInput(M, K, A), PackedWeights(K, N, B));
              |Mismatches(M, N, output, Reference(ar, M, K, N, A, B))| == 0
  {
    hide PackedWeights, PackedInput, Mismatches, ProductAt, Sweep;
    if Sweeps(device, ar, M, K, N) {
      TestPasses(ar, M, K, N, A, B, Reference(ar, M, K, N, A, B));
    }
  }

  // ----- a device that adds in another order

  /** Every compared entry is the sum of its products, in the order and grouping that `trees` gives it,
      whatever commands the device is given. */
  ghost predicate AddsSomehow(device: Device<int, int>, add: FloatAdd, M: nat, K: nat, N: nat,
                              trees: (int, int) -> Tree)
    requires Dims(M, K, N) && FillsOutput(device, M, K, N)
  {
    forall words, x, w, m, n ::
      |x| == M * K && |w| == N * K && Bounded(x, MAX_OPERAND) && Bounded(w, MAX_OPERAND)
      && 1 <= m <= M && 1 <= n < N ==>
        AddsBy(add, M, K, N, x, w, device(words, x, w), m, n, trees(m, n))
  }

  predicate AddsBy(add: FloatAdd, M: nat, K: nat, N: nat, x: seq<int>, w: seq<int>, output: seq<int>,
                   m: int, n: int, t: Tree)
    requires Dims(M, K, N) && |x| == M * K && |w| == N * K && |output| == M * N && 1 <= m <= M && 1 <= n <= N
  {
    var terms := PackedProducts(M, K, N, x, w, m, n);
    && |Leaves(t)| == K && IsPermutation(Leaves(t))
    && Names(t, terms) && OutputAt(M, N, output, m, n) == Eval(add, t, terms)
  }

  lemma AddingSomehowPasses(add: FloatAdd, mul: FloatAdd, device: Device<int, int>, trees: (int, int) -> Tree,
                            M: nat, K: nat, N: nat, A: seq<int>, B: seq<int>)
    requires ExactAdd(add) && ExactMul(mul) && Dims(M, K, N) && K <= 4096 && FillsOutput(device, M, K, N)
    requires |A| == M * K && |B| == N * K && Bounded(A, 10) && Bounded(B, 10)
    requires AddsSomehow(device, add, M, K, N, trees)
    ensures |Mismatches(M, N, device([], PackedInput(M, K, A), PackedWeights(K, N, B)),
                        Reference(Arith(0, add, mul), M, K, N, A, B))| == 0
  {
    hide Eval, PackedProducts, OutputAt, ProductAt, Leaves, Names, Mismatches, IsPermutation;
    hide FeatureSource, WeightSource;
    var x, w := PackedInput(M, K, A), PackedWeights(K, N, B);
    var output := device([], x, w);
    assert forall m, n :: 1 <= m <= M && 1 <= n < N ==> AddsBy(add, M, K, N, x, w, output, m, n, trees(m, n));
    AnyGroupingPasses(add, mul, M, K, N, A, B, trees, output, Reference(Arith(0, add, mul), M, K, N, A, B));
  }

  /** The program on operands 0 to 10, with additions and multiplications that are exact on small
      integers: no error is found on a device that adds in orders and groupings of its own. */
  method RunIntegerTest(add: FloatAdd, mul: FloatAdd, device: Device<int, int>, ghost trees: (int, int) -> Tree,
                        M: u32, K: u32, N: u32, inputDma: u32, weightsDma: u32, outputDma: u32,
                        matrixA: array<int>, matrixB: array<int>, npuRegs: array<nat>, regcmd: array<nat>)
    returns (outcome: Outcome)
    requires ExactAdd(add) && ExactMul(mul) && FillsOutput(device, M, K, N)
    requires Accepted(M, K, N) ==>
               && matrixA.Length >= M * K && (forall i :: 0 <= i < M * K ==> 0 <= matrixA[i] <= 10)
               && matrixB.Length >= N * K && (forall i :: 0 <= i < N * K ==> 0 <= matrixB[i] <= 10)
    requires npuRegs.Length == 112 == regcmd.Length && npuRegs != regcmd
    requires npuRegs as object != matrixA && npuRegs as object != matrixB
    requires regcmd as object != matrixA && regcmd as object != matrixB
    modifies npuRegs, regcmd
    ensures outcome.Compared? <==> !outcome.SizesRefused? && M * K <= 180224
    ensures outcome.Compared? ==> Dims(M, K, N) && (AddsSomehow(device, add, M, K, N, trees) ==> outcome.errors == 0)
  {
    hide Encoded, ResultOf, DescriptorsFor, PackedWeights, PackedInput, Mismatches, ProductAt, Sweep;
    hide AddsSomehow;
    outcome := RunTest(Arith(0, add, mul), 0, device, M, K, N, inputDma, weightsDma, outputDma,
                       matrixA, matrixB, npuRegs, regcmd);
    if outcome.Compared? && AddsSomehow(device, add, M, K, N, trees) {
      AddingSomehowPasses(add, mul, device, trees, M, K, N, matrixA[..M * K], matrixB[..N * K]);
    }
  }
}
