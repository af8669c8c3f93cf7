/** The fp16 test program as the Makefile links it, with src/npu_matmul_mesa.c. The generator of that file
    never fails and returns its 17 commands; its three layout functions are stubs that return 0, so every
    element is packed into slot 0 and every comparison reads slot 0. */
module MesaTest {
  import opened Descriptors
  import opened MatmulTest
  import opened BlockedMatmul
  import opened Generator
  import opened MesaStream
  import opened TestProgram

  /** feature_data and weight_fp16 of src/npu_matmul_mesa.c, in any call. */
  const STUB_SLOT := 0

  /** A packed buffer: the last matrix element in the first slot, zeros elsewhere. */
  function LastOnly<S>(a: seq<S>, zero: S): (buffer: seq<S>)
    requires |a| > 0
    ensures |buffer| == |a| && buffer[0] == a[|a| - 1]
    ensures forall s :: 1 <= s < |buffer| ==> buffer[s] == zero
  {
    [a[|a| - 1]] + seq(|a| - 1, _ => zero)
  }

  /** All that packing keeps of a matrix is its last element. */
  lemma PackedEqualIff<S>(a: seq<S>, b: seq<S>, zero: S)
    requires |a| == |b| > 0
    ensures LastOnly(a, zero) == LastOnly(b, zero) <==> a[|a| - 1] == b[|b| - 1]
  {
    if a[|a| - 1] == b[|b| - 1] {
      assert forall s :: 0 <= s < |a| ==> LastOnly(a, zero)[s] == LastOnly(b, zero)[s];
    } else {
      assert LastOnly(a, zero)[0] != LastOnly(b, zero)[0];
    }
  }

  /** So what a device is given, and what it returns, depends on the operands through two elements only. */
  lemma DeviceSeesLastElements<S(!new), T(!new)>(device: Device<S, T>, words: seq<nat>, zero: S,
                                                 A: seq<S>, B: seq<S>, A': seq<S>, B': seq<S>)
    requires |A| == |A'| > 0 && |B| == |B'| > 0
    requires A[|A| - 1] == A'[|A'| - 1] && B[|B| - 1] == B'[|B'| - 1]
    ensures device(words, LastOnly(A, zero), LastOnly(B, zero)) == device(words, LastOnly(A', zero), LastOnly(B', zero))
  {
    hide LastOnly;
    PackedEqualIff(A, A', zero);
    PackedEqualIff(B, B', zero);
  }

  /** Both packing loops: they differ in the layout function alone. */
  method PackThroughStub<S>(rows: nat, cols: nat, matrix: array<S>, buffer: array<S>, zero: S)
    requires rows * cols > 0
    requires matrix.Length >= rows * cols && buffer.Length == rows * cols && buffer != matrix
    modifies buffer
    ensures buffer[..] == LastOnly(matrix[..rows * cols], zero)
    ensures buffer[0] == matrix[rows * cols - 1] && forall s :: 1 <= s < rows * cols ==> buffer[s] == zero
  {
    forall s | 0 <= s < rows * cols {
      buffer[s] := zero;
    }
    ghost var A := matrix[..];
    var i := 1;
    while i <= rows
      invariant 1 <= i <= rows + 1 && matrix[..] == A
      invariant forall s :: 1 <= s < rows * cols ==> buffer[s] == zero
      invariant i > 1 ==> 0 <= (i - 2) * cols + (cols - 1) < |A| && buffer[STUB_SLOT] == A[(i - 2) * cols + (cols - 1)]
    {
      var j := 1;
      while j <= cols
        invariant 1 <= j <= cols + 1 && matrix[..] == A
        invariant forall s :: 1 <= s < rows * cols ==> buffer[s] == zero
        invariant j > 1 ==> 0 <= (i - 1) * cols + (j - 2) < |A| && buffer[STUB_SLOT] == A[(i - 1) * cols + (j - 2)]
      {
        RowBounds(i - 1, rows, cols);
        buffer[STUB_SLOT] := matrix[(i - 1) * cols + (j - 1)];
        j := j + 1;
      }
      i := i + 1;
    }
    RowBounds(rows - 1, rows, cols);
  }

  /** The output as the comparison loop sees it. */
  function SeenThroughStub<T>(M: nat, N: nat, output: seq<T>): (seen: seq<T>)
    requires |output| == M * N
    ensures |seen| == M * N
  {
    seq(M * N, s requires 0 <= s < M * N => output[STUB_SLOT])
  }

  method VerifyThroughStub<T(==)>(M: nat, N: nat, output: array<T>, expected: array<T>) returns (errors: nat)
    requires FeatureDims(M, N, 4) && output.Length == M * N && expected.Length >= M * N && M * N > 0
    ensures errors == |Mismatches(M, N, SeenThroughStub(M, N, output[..]), expected[..])|
  {
    hide FeatureSlot, FeatureSource, Mismatch, Found, Mismatches;
    errors := 0;
    ghost var seen, exp := SeenThroughStub(M, N, output[..]), expected[..];
    FoundNone(M, N, seen, exp);
    ghost var found: set<Entry> := {};
    var m := 1;
    while m <= M
      invariant 1 <= m <= M + 1 && errors == |found|
      invariant forall e :: e in found <==> Found(M, N, seen, exp, m, 1, e)
    {
      var n := 1;
      while n < N
        invariant 1 <= n <= N && errors == |found|
        invariant forall e :: e in found <==> Found(M, N, seen, exp, m, n, e)
      {
        FeatureSourceOfSlot(M, N, 4, m, n);
        var actual := output[STUB_SLOT];
        var wanted := expected[(m - 1) * N + (n - 1)];
        FoundNext(M, N, seen, exp, m, n);
        MismatchAt(M, N, seen, exp, m, n);
        if actual != wanted {
          errors := errors + 1;
          found := found + {Entry(m, n)};
        }
        n := n + 1;
      }
      FoundNextRow(M, N, seen, exp, m);
      m := m + 1;
    }
    FoundAll(M, N, seen, exp);
    assert found == Mismatches(M, N, seen, exp);
  }

  method CompareOnDevice<S(0,!new), T(0,==,!new)>(ar: Arith<S, T>, zero: S, device: Device<S, T>, words: seq<nat>,
                                                  M: nat, K: nat, N: nat, matrixA: array<S>, matrixB: array<S>)
    returns (errors: nat)
    requires Dims(M, K, N) && FillsOutput(device, M, K, N) && M * K > 0 && N * K > 0 && M * N > 0
    requires matrixA.Length >= M * K && matrixB.Length >= N * K
    ensures var A, B := matrixA[..M * K], matrixB[..N * K];
            errors == |Mismatches(M, N, SeenThroughStub(M, N, device(words, LastOnly(A, zero), LastOnly(B, zero))),
                                  Reference(ar, M, K, N, A, B))|
  {
    hide LastOnly, SeenThroughStub, Mismatches, ProductAt;
    var weights := new S[N * K];
    PackThroughStub(N, K, matrixB, weights, zero);
    var input := new S[M * K];
    PackThroughStub(M, K, matrixA, input, zero);
    var expected := new T[M * N];
    MatmulCpu(ar, M, K, N, matrixA, matrixB, expected);
    var result := device(words, input[..], weights[..]);
    var output := new T[M * N](i requires 0 <= i < M * N => result[i]);
    assert output[..] == result;
    ReferencePrefix(ar, M, K, N, matrixA[..], matrixB[..], expected[..]);
    assert matrixA[..][..M * K] == matrixA[..M * K] && matrixB[..][..N * K] == matrixB[..N * K];
    errors := VerifyThroughStub(M, N, output, expected);
  }

  /** The program linked with src/npu_matmul_mesa.c. No accepted size is refused by the generator, and all
      17 commands reach the device, but only the last element of each matrix does. */
  method RunTest<S(0,!new), T(0,==,!new)>(ar: Arith<S, T>, zero: S, device: Device<S, T>, M: u32, K: u32, N: u32,
                                          inputDma: u32, weightsDma: u32, outputDma: u32,
                                          matrixA: array<S>, matrixB: array<S>,
                                          npuRegs: array<nat>, regcmd: array<nat>)
    returns (outcome: Outcome)
    requires Accepted(M, K, N) ==> matrixA.Length >= M * K && matrixB.Length >= N * K
    requires npuRegs.Length == 112 == regcmd.Length && npuRegs != regcmd
    requires npuRegs as object != matrixA && npuRegs as object != matrixB
    requires regcmd as object != matrixA && regcmd as object != matrixB
    requires FillsOutput(device, M, K, N)
    modifies npuRegs, regcmd
    ensures outcome.Compared? <==> && 1 <= M <= 384 && (M == 1 || M % 4 == 0)
                                   && 1 <= K <= 4096 && K % 32 == 0
                                   && 1 <= N <= 4096 && N % 16 == 0
    ensures !outcome.Compared? ==> outcome == SizesRefused
    ensures outcome.Compared? ==>
              && outcome.copied == 17 && regcmd[STREAM_LENGTH..] == old(regcmd[STREAM_LENGTH..])
              && regcmd[..STREAM_LENGTH] == StreamWords(Params(M, K, N, inputDma, weightsDma, outputDma, 0))
    ensures outcome.Compared? ==>
              && Dims(M, K, N) && M * K > 0 && N * K > 0
              && var A, B := matrixA[..M * K], matrixB[..N * K];
                 var output := device(regcmd[..STREAM_LENGTH], LastOnly(A, zero), LastOnly(B, zero));
                 outcome.errors == |Mismatches(M, N, SeenThroughStub(M, N, output), Reference(ar, M, K, N, A, B))|
  {
    if !Accepted(M, K, N) {
      return SizesRefused;
    }
    hide LastOnly, SeenThroughStub, Mismatches, ProductAt, MesaWord, Intended;
    AcceptedProducts(M, K, N);
    DimsFromAlignment(M, K, N);
    var ret := GenMatmulFp16Stream(Params(M, K, N, inputDma, weightsDma, outputDma, 0), npuRegs);
    if ret < 0 {
      return GenerationFailed(ret);
    }
    CopyWords(regcmd, npuRegs, ret);
    var errors := CompareOnDevice(ar, zero, device, regcmd[..ret], M, K, N, matrixA, matrixB);
    outcome := Compared(ret, errors);
  }

  lemma AcceptedProducts(M: int, K: int, N: int)
    requires Accepted(M, K, N)
    ensures 0 < M < 0x1_0000 && 0 < K < 0x1_0000 && 0 < N < 0x1_0000
    ensures M * K > 0 && N * K > 0 && 0 < M * N < 0x4000_0000
  {
    Positive(M, K);
    Positive(N, K);
    Positive(M, N);
    assert M * N <= MAX_M * N;
  }

  lemma Positive(x: int, y: int)
    requires x > 0 && y > 0
    ensures x * y > 0
  {
  }

  lemma SeenEntry<S(!new), T(!new)>(ar: Arith<S, T>, M: nat, K: nat, N: nat, A: seq<S>, B: seq<S>, output: seq<T>,
                                    m: int, n: int)
    requires Dims(M, K, N) && |A| == M * K && |B| == N * K && |output| == M * N > 0 && 1 <= m <= M && 1 <= n <= N
    ensures OutputAt(M, N, SeenThroughStub(M, N, output), m, n) == output[0]
    ensures ExpectedAt(M, N, Reference(ar, M, K, N, A, B), m, n) == Product(ar, M, K, N, A, B, m - 1, n - 1)
  {
    hide FeatureSlot, FeatureSource, Product, ProductAt;
    FeatureSourceOfSlot(M, N, 4, m, n);
    ReferenceAt(ar, M, K, N, A, B, m, n);
  }

  /** What a pass of this program means: every compared entry of the reference is the one number in slot 0
      of the output. */
  lemma PassesThroughStubIff<S(!new), T(!new)>(ar: Arith<S, T>, M: nat, K: nat, N: nat, A: seq<S>, B: seq<S>,
                                               output: seq<T>)
    requires Dims(M, K, N) && |A| == M * K && |B| == N * K && |output| == M * N > 0
    ensures |Mismatches(M, N, SeenThroughStub(M, N, output), Reference(ar, M, K, N, A, B))| == 0 <==>
            forall i, j :: 0 <= i < M && 0 <= j < N - 1 ==> Product(ar, M, K, N, A, B, i, j) == output[0]
  {
    hide SeenThroughStub, ProductAt, Mismatches, Product, OutputAt, ExpectedAt;
    var seen, expected := SeenThroughStub(M, N, output), Reference(ar, M, K, N, A, B);
    PassesIff(M, N, seen, expected);
    forall m, n | 1 <= m <= M && 1 <= n < N
      ensures OutputAt(M, N, seen, m, n) == output[0]
      ensures ExpectedAt(M, N, expected, m, n) == Product(ar, M, K, N, A, B, m - 1, n - 1)
    {
      SeenEntry(ar, M, K, N, A, B, output, m, n);
    }
    forall i, j | 0 <= i < M && 0 <= j < N - 1
      ensures ExpectedAt(M, N, expected, i + 1, j + 1) == Product(ar, M, K, N, A, B, i, j)
    {
    }
  }

  /** So no device passes on operands whose product has two different entries outside the last column. */
  lemma NoDevicePasses<S(!new), T(!new)>(ar: Arith<S, T>, M: nat, K: nat, N: nat, A: seq<S>, B: seq<S>, output: seq<T>,
                                         i: nat, j: nat, i': nat, j': nat)
    requires Dims(M, K, N) && |A| == M * K && |B| == N * K && |output| == M * N > 0
    requires i < M && j < N - 1 && i' < M && j' < N - 1
    requires Product(ar, M, K, N, A, B, i, j) != Product(ar, M, K, N, A, B, i', j')
    ensures |Mismatches(M, N, SeenThroughStub(M, N, output), Reference(ar, M, K, N, A, B))| > 0
  {
    hide SeenThroughStub, Mismatches, Product;
    PassesThroughStubIff(ar, M, K, N, A, B, output);
  }
}
