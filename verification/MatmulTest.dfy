/** The host side of the fp16 matmul test: the CPU reference, the loops that lay the operands out
    for the NPU, and the loop that compares the result.

    Elements are of any type; the reference multiplies and adds with whatever `Arith` says, so
    nothing below depends on addition being associative. */
module MatmulTest {
  import opened MixedRadix
  import opened Layouts
  import opened WeightLayouts
  import opened Permutation

  const MAX_M := 384
  const MAX_K := 4096
  const MAX_N := 4096

  /** The dimension checks at the start of the test. */
  predicate Accepted(M: int, K: int, N: int) {
    && 0 < M <= MAX_M && (M % 4 == 0 || M == 1)
    && 0 < K <= MAX_K && K % 32 == 0
    && 0 < N <= MAX_N && N % 16 == 0
  }

  /** Scalar operations: products of operands `S` are summed as `T`. */
  datatype Arith<!S, !T> = Arith(zero: T, add: (T, T) -> T, mul: (S, S) -> T)

  /** Sum of products, accumulated from the first index to the last. */
  function Dot<S, T>(ar: Arith<S, T>, xs: seq<S>, ys: seq<S>): T
    requires |xs| == |ys|
  {
    if |xs| == 0 then ar.zero
    else
      var l := |xs| - 1;
      ar.add(Dot(ar, xs[..l], ys[..l]), ar.mul(xs[l], ys[l]))
  }

  // ----- row-major matrices

  lemma RowBounds(i: int, rows: int, cols: int)
    requires 0 <= i < rows && cols >= 0
    ensures 0 <= i * cols <= (i + 1) * cols <= rows * cols && i * cols + cols == (i + 1) * cols
  {
    Distribute(i + 1, rows - i - 1, cols);
    Distribute(i, 1, cols);
    NonNegative(rows - i - 1, cols);
    NonNegative(i, cols);
  }

  function Row<S>(a: seq<S>, rows: nat, cols: nat, i: nat): (r: seq<S>)
    requires i < rows && |a| >= rows * cols
    ensures |r| == cols
    ensures forall l :: 0 <= l < cols ==> 0 <= i * cols + l < |a| && r[l] == a[i * cols + l]
  {
    RowBounds(i, rows, cols);
    a[i * cols..(i + 1) * cols]
  }

  lemma LinearIndex(p: int, rows: int, cols: int)
    requires 0 <= p < rows * cols && rows >= 0 && cols >= 0
    ensures cols > 0 && 0 <= p / cols < rows && 0 <= p % cols < cols && p == p / cols * cols + p % cols
  {
    assert cols != 0;
    StepOrder(p / cols, p % cols, rows, 0, cols);
    StepOrder(-1, 0, p / cols, p % cols, cols);
  }

  /** Entry `i`,`j` of A times the transpose of B. */
  function Product<S, T>(ar: Arith<S, T>, m: nat, k: nat, n: nat, A: seq<S>, B: seq<S>, i: nat, j: nat): T
    requires |A| >= m * k && |B| >= n * k && i < m && j < n
  {
    Dot(ar, Row(A, m, k, i), Row(B, n, k, j))
  }

  function ProductAt<S, T>(ar: Arith<S, T>, m: nat, k: nat, n: nat, A: seq<S>, B: seq<S>, p: int): T
    requires |A| >= m * k && |B| >= n * k && 0 <= p < m * n
  {
    LinearIndex(p, m, n);
    Product(ar, m, k, n, A, B, p / n, p % n)
  }

  lemma DotNext<S, T>(ar: Arith<S, T>, xs: seq<S>, ys: seq<S>, d: int)
    requires |xs| == |ys| && 0 < d <= |xs|
    ensures Dot(ar, xs[..d], ys[..d]) == ar.add(Dot(ar, xs[..d - 1], ys[..d - 1]), ar.mul(xs[d - 1], ys[d - 1]))
  {
    assert xs[..d][..d - 1] == xs[..d - 1] && ys[..d][..d - 1] == ys[..d - 1];
  }

  /** The innermost loop: one row against one column, from the first index to the last. */
  method SumProducts<S, T>(ar: Arith<S, T>, k: nat, src0: array<S>, base0: nat, src1: array<S>, base1: nat)
    returns (sum: T)
    requires base0 + k <= src0.Length && base1 + k <= src1.Length
    ensures sum == Dot(ar, src0[base0..base0 + k], src1[base1..base1 + k])
  {
    ghost var row, col := src0[base0..base0 + k], src1[base1..base1 + k];
    sum := ar.zero;
    assert sum == Dot(ar, row[..0], col[..0]);
    hide Dot;
    var l := 0;
    while l < k
      invariant l <= k && sum == Dot(ar, row[..l], col[..l])
    {
      DotNext(ar, row, col, l + 1);
      sum := ar.add(sum, ar.mul(src0[base0 + l], src1[base1 + l]));
      l := l + 1;
    }
    assert row[..k] == row && col[..k] == col;
  }

  lemma ProductAtEntry<S, T>(ar: Arith<S, T>, m: nat, k: nat, n: nat, A: seq<S>, B: seq<S>, i: nat, j: nat)
    requires |A| >= m * k && |B| >= n * k && i < m && j < n
    ensures i * k + k <= |A| && j * k + k <= |B| && 0 <= i * n + j < m * n
    ensures ProductAt(ar, m, k, n, A, B, i * n + j) == Dot(ar, A[i * k..i * k + k], B[j * k..j * k + k])
  {
    hide Dot;
    RowBounds(i, m, n);
    RowBounds(i, m, k);
    RowBounds(j, n, k);
    StepDivMod(i, j, n);
  }

  /** The middle loop: one row of the result. */
  method MatmulRow<S, T>(ar: Arith<S, T>, m: nat, k: nat, n: nat, src0: array<S>, src1: array<S>, dst: array<T>,
                         i: nat, base: nat)
    requires src0.Length >= m * k && src1.Length >= n * k && dst.Length >= m * n
    requires dst as object != src0 && dst as object != src1
    requires i < m && base == i * n && base + n <= m * n
    modifies dst
    ensures forall p :: base <= p < base + n ==> dst[p] == ProductAt(ar, m, k, n, src0[..], src1[..], p)
    ensures forall p :: 0 <= p < dst.Length && !(base <= p < base + n) ==> dst[p] == old(dst[p])
  {
    hide Dot, ProductAt;
    ghost var A, B := src0[..], src1[..];
    var j := 0;
    while j < n
      invariant j <= n && src0[..] == A && src1[..] == B
      invariant forall p :: base <= p < base + j ==> dst[p] == ProductAt(ar, m, k, n, A, B, p)
      invariant forall p :: 0 <= p < dst.Length && !(base <= p < base + j) ==> dst[p] == old(dst[p])
    {
      ProductAtEntry(ar, m, k, n, A, B, i, j);
      NonNegative(i, k);
      NonNegative(j, k);
      var sum := SumProducts(ar, k, src0, i * k, src1, j * k);
      assert src0[i * k..i * k + k] == A[i * k..i * k + k] && src1[j * k..j * k + k] == B[j * k..j * k + k];
      dst[base + j] := sum;
      j := j + 1;
    }
  }

  /** The CPU reference. */
  method MatmulCpu<S, T>(ar: Arith<S, T>, m: nat, k: nat, n: nat, src0: array<S>, src1: array<S>, dst: array<T>)
    requires src0.Length >= m * k && src1.Length >= n * k && dst.Length >= m * n
    requires dst as object != src0 && dst as object != src1
    modifies dst
    ensures forall p :: 0 <= p < m * n ==> dst[p] == ProductAt(ar, m, k, n, src0[..], src1[..], p)
    ensures forall p :: m * n <= p < dst.Length ==> dst[p] == old(dst[p])
  {
    hide Dot, ProductAt;
    ghost var A, B := src0[..], src1[..];
    var i, base := 0, 0;
    while i < m
      invariant i <= m && base == i * n <= m * n && src0[..] == A && src1[..] == B
      invariant forall p :: 0 <= p < base ==> dst[p] == ProductAt(ar, m, k, n, A, B, p)
      invariant forall p :: m * n <= p < dst.Length ==> dst[p] == old(dst[p])
    {
      RowBounds(i, m, n);
      MatmulRow(ar, m, k, n, src0, src1, dst, i, base);
      i, base := i + 1, base + n;
    }
  }

  // ----- laying out the weights

  predicate WeightDims(K: nat, N: nat) {
    K > 0 && K % 32 == 0 && N % 16 == 0
  }

  /** The row-major position of the weight that belongs in slot `s`. */
  function WeightSource(K: nat, N: nat, s: int): (t: int)
    requires WeightDims(K, N) && 0 <= s < N * K
    ensures 0 <= t < N * K
  {
    var o := WeightOwner(16, K, s);
    WeightBijection(Fp16, K, N, o, s);
    RowBounds(o.k - 1, N, K);
    (o.k - 1) * K + (o.c - 1)
  }

  function PackedWeights<S>(K: nat, N: nat, B: seq<S>): (w: seq<S>)
    requires WeightDims(K, N) && |B| >= N * K
    ensures |w| == N * K
  {
    seq(N * K, s requires 0 <= s < N * K => B[WeightSource(K, N, s)])
  }

  /** `WeightSource` inverts the layout: kernel n, channel k comes from row n, column k. */
  lemma WeightSourceOfSlot(K: nat, N: nat, n: int, k: int)
    requires WeightDims(K, N) && 1 <= n <= N && 1 <= k <= K
    ensures 0 <= WeightFp16(K, n, k) < N * K && 0 <= (n - 1) * K + (k - 1) < N * K
    ensures WeightSource(K, N, WeightFp16(K, n, k)) == (n - 1) * K + (k - 1)
  {
    hide WeightFp16, WeightOwner;
    WeightBijection(Fp16, K, N, Weight(n, k), 0);
    assert Slot(Fp16, K, Weight(n, k)) == WeightFp16(K, n, k);
    RowBounds(n - 1, N, K);
  }

  lemma SlotOwner(K: nat, N: nat, s: int) returns (o: Weight)
    requires WeightDims(K, N) && 0 <= s < N * K
    ensures InKernels(N, K, o) && WeightFp16(K, o.k, o.c) == s
    ensures WeightSource(K, N, s) == (o.k - 1) * K + (o.c - 1)
  {
    hide WeightFp16, WeightOwner;
    o := WeightOwner(16, K, s);
    WeightBijection(Fp16, K, N, o, s);
    assert Slot(Fp16, K, o) == WeightFp16(K, o.k, o.c);
  }

  lemma WeightSourceInjective(K: nat, N: nat, s: int, s': int)
    requires WeightDims(K, N) && 0 <= s < N * K && 0 <= s' < N * K
    ensures WeightSource(K, N, s) == WeightSource(K, N, s') ==> s == s'
  {
    hide WeightFp16, WeightOwner, WeightSource;
    var o := SlotOwner(K, N, s);
    var o' := SlotOwner(K, N, s');
    StepDivMod(o.k - 1, o.c - 1, K);
    StepDivMod(o'.k - 1, o'.c - 1, K);
  }

  /** Reading the packed buffer through the layout gives the matrix back. */
  lemma PackedWeightAt<S>(K: nat, N: nat, B: seq<S>, n: int, k: int)
    requires WeightDims(K, N) && |B| >= N * K && 1 <= n <= N && 1 <= k <= K
    ensures 0 <= WeightFp16(K, n, k) < N * K && 0 <= (n - 1) * K + (k - 1) < N * K
    ensures PackedWeights(K, N, B)[WeightFp16(K, n, k)] == B[(n - 1) * K + (k - 1)]
  {
    hide WeightFp16, WeightSource;
    WeightSourceOfSlot(K, N, n, k);
  }

  /** The packed buffer is a rearrangement of the matrix: nothing is lost, repeated or left zero. */
  lemma PackedWeightsPermute<S>(K: nat, N: nat, B: seq<S>)
    requires WeightDims(K, N) && |B| == N * K
    ensures multiset(PackedWeights(K, N, B)) == multiset(B)
  {
    var f := seq(N * K, s requires 0 <= s < N * K => WeightSource(K, N, s));
    forall s, s' | 0 <= s < s' < N * K
      ensures f[s] != f[s']
    {
      WeightSourceInjective(K, N, s, s');
    }
    SameMultiset(PackedWeights(K, N, B), B, f);
  }

  method PackWeights<S>(K: nat, N: nat, matrixB: array<S>, weights: array<S>, zero: S)
    requires WeightDims(K, N) && matrixB.Length >= N * K && weights.Length == N * K && weights != matrixB
    modifies weights
    ensures weights[..] == PackedWeights(K, N, matrixB[..])
  {
    hide WeightSource, WeightFp16;
    ghost var B := matrixB[..];
    forall s | 0 <= s < N * K {
      weights[s] := zero;
    }
    var n := 1;
    while n <= N
      invariant 1 <= n <= N + 1 && matrixB[..] == B
      invariant forall s :: 0 <= s < N * K ==>
          weights[s] == if WeightSource(K, N, s) < (n - 1) * K then B[WeightSource(K, N, s)] else zero
    {
      var k := 1;
      while k <= K
        invariant 1 <= k <= K + 1 && matrixB[..] == B
        invariant forall s :: 0 <= s < N * K ==>
            weights[s] == if WeightSource(K, N, s) < (n - 1) * K + (k - 1) then B[WeightSource(K, N, s)] else zero
      {
        WeightSourceOfSlot(K, N, n, k);
        ghost var slot := WeightFp16(K, n, k);
        forall s | 0 <= s < N * K && s != slot
          ensures WeightSource(K, N, s) != (n - 1) * K + (k - 1)
        {
          WeightSourceInjective(K, N, s, slot);
        }
        weights[WeightFp16(K, n, k)] := matrixB[(n - 1) * K + (k - 1)];
        k := k + 1;
      }
      assert (n - 1) * K + K == n * K;
      n := n + 1;
    }
    assert (n - 1) * K == N * K;
  }

  // ----- laying out the input, and reading the output

  /** Columns a multiple of the plane width, or a single row. */
  predicate FeatureDims(rows: nat, cols: nat, C2: nat) {
    rows >= 1 && cols >= 1 && C2 >= 1 && (cols % C2 == 0 || rows == 1)
  }

  /** Slot of row `m`, column `c` of a rows-by-cols matrix. */
  function FeatureSlot(rows: int, cols: int, C2: int, m: int, c: int): int
    requires C2 >= 1
  {
    FeatureData(cols, rows, 1, C2, c, m, 1)
  }

  /** The row-major position of the element that belongs in slot `s`. */
  function FeatureSource(rows: nat, cols: nat, C2: nat, s: int): (t: int)
    requires FeatureDims(rows, cols, C2) && 0 <= s < rows * cols
    ensures 0 <= t < rows * cols
  {
    FeatureSlotOwner(rows, cols, C2, s);
    var o := FeatureOwner(rows, 1, C2, s);
    RowBounds(o.h - 1, rows, cols);
    (o.h - 1) * cols + (o.c - 1)
  }

  lemma FeatureSlotOwner(rows: nat, cols: nat, C2: nat, s: int)
    requires FeatureDims(rows, cols, C2) && 0 <= s < rows * cols
    ensures var o := FeatureOwner(rows, 1, C2, s);
            1 <= o.h <= rows && 1 <= o.c <= cols && FeatureSlot(rows, cols, C2, o.h, o.c) == s
  {
    FeatureDense(cols, rows, 1, C2);
    FeatureHit(cols, rows, 1, C2, s);
    assert cols * rows * 1 == rows * cols;
    assert Used(cols, rows, 1, C2, s);
  }

  lemma FeatureSourceOfSlot(rows: nat, cols: nat, C2: nat, m: int, c: int)
    requires FeatureDims(rows, cols, C2) && 1 <= m <= rows && 1 <= c <= cols
    ensures 0 <= FeatureSlot(rows, cols, C2, m, c) < rows * cols && 0 <= (m - 1) * cols + (c - 1) < rows * cols
    ensures FeatureSource(rows, cols, C2, FeatureSlot(rows, cols, C2, m, c)) == (m - 1) * cols + (c - 1)
  {
    var x := Coord(c, m, 1);
    FeatureRange(cols, rows, 1, C2, x);
    FeatureDense(cols, rows, 1, C2);
    assert SlotOf(cols, rows, 1, C2, x) < cols * rows * 1 == rows * cols;
    RowBounds(m - 1, rows, cols);
  }

  lemma FeatureSourceInjective(rows: nat, cols: nat, C2: nat, s: int, s': int)
    requires FeatureDims(rows, cols, C2) && 0 <= s < rows * cols && 0 <= s' < rows * cols
    ensures FeatureSource(rows, cols, C2, s) == FeatureSource(rows, cols, C2, s') ==> s == s'
  {
    hide FeatureData, FeatureOwner;
    FeatureSlotOwner(rows, cols, C2, s);
    FeatureSlotOwner(rows, cols, C2, s');
    var o, o' := FeatureOwner(rows, 1, C2, s), FeatureOwner(rows, 1, C2, s');
    StepDivMod(o.h - 1, o.c - 1, cols);
    StepDivMod(o'.h - 1, o'.c - 1, cols);
  }

  /** These dimensions are the ones for which the layouts fill the buffers: exactly, for the input and the
      output, and for the weights whenever there is more than one channel group. */
  lemma DimsAreDense(rows: nat, cols: nat, C2: nat)
    ensures FeatureDims(rows, cols, C2) <==> FeatureShape(cols, rows, 1, C2) && FeatureFits(cols, rows, 1, C2)
    ensures rows >= 1 && cols > 32 ==>
              (WeightDims(cols, rows) <==> SlotsDistinct(Fp16, cols, rows) && SlotsInside(Fp16, cols, rows))
  {
    hide FeatureFits, SlotsDistinct, SlotsInside;
    if FeatureShape(cols, rows, 1, C2) { FeatureDense(cols, rows, 1, C2); }
    if rows >= 1 && cols > 32 { WeightDense(Fp16, cols, rows); }
  }

  function PackedInput<S>(M: nat, K: nat, A: seq<S>): (r: seq<S>)
    requires FeatureDims(M, K, 8) && |A| >= M * K
    ensures |r| == M * K
  {
    seq(M * K, s requires 0 <= s < M * K => A[FeatureSource(M, K, 8, s)])
  }

  /** Packing followed by a gather through feature_data is the identity. */
  lemma PackedInputAt<S>(M: nat, K: nat, A: seq<S>, m: int, k: int)
    requires FeatureDims(M, K, 8) && |A| >= M * K && 1 <= m <= M && 1 <= k <= K
    ensures 0 <= FeatureSlot(M, K, 8, m, k) < M * K && 0 <= (m - 1) * K + (k - 1) < M * K
    ensures PackedInput(M, K, A)[FeatureSlot(M, K, 8, m, k)] == A[(m - 1) * K + (k - 1)]
  {
    hide FeatureSlot, FeatureSource;
    FeatureSourceOfSlot(M, K, 8, m, k);
  }

  lemma PackedInputPermutes<S>(M: nat, K: nat, A: seq<S>)
    requires FeatureDims(M, K, 8) && |A| == M * K
    ensures multiset(PackedInput(M, K, A)) == multiset(A)
  {
    var f := seq(M * K, s requires 0 <= s < M * K => FeatureSource(M, K, 8, s));
    forall s, s' | 0 <= s < s' < M * K
      ensures f[s] != f[s']
    {
      FeatureSourceInjective(M, K, 8, s, s');
    }
    SameMultiset(PackedInput(M, K, A), A, f);
  }

  method PackInput<S>(M: nat, K: nat, matrixA: array<S>, input: array<S>, zero: S)
    requires FeatureDims(M, K, 8) && matrixA.Length >= M * K && input.Length == M * K && input != matrixA
    modifies input
    ensures input[..] == PackedInput(M, K, matrixA[..])
  {
    hide FeatureSource;
    ghost var A := matrixA[..];
    forall s | 0 <= s < M * K {
      input[s] := zero;
    }
    var m := 1;
    while m <= M
      invariant 1 <= m <= M + 1 && matrixA[..] == A
      invariant forall s :: 0 <= s < M * K ==>
          input[s] == if FeatureSource(M, K, 8, s) < (m - 1) * K then A[FeatureSource(M, K, 8, s)] else zero
    {
      var k := 1;
      while k <= K
        invariant 1 <= k <= K + 1 && matrixA[..] == A
        invariant forall s :: 0 <= s < M * K ==>
            input[s] == if FeatureSource(M, K, 8, s) < (m - 1) * K + (k - 1) then A[FeatureSource(M, K, 8, s)] else zero
      {
        FeatureSourceOfSlot(M, K, 8, m, k);
        ghost var slot := FeatureSlot(M, K, 8, m, k);
        forall s | 0 <= s < M * K && s != slot
          ensures FeatureSource(M, K, 8, s) != (m - 1) * K + (k - 1)
        {
          FeatureSourceInjective(M, K, 8, s, slot);
        }
        input[FeatureData(K, M, 1, 8, k, m, 1)] := matrixA[(m - 1) * K + (k - 1)];
        k := k + 1;
      }
      assert (m - 1) * K + K == m * K;
      m := m + 1;
    }
    assert (m - 1) * K == M * K;
  }

  // ----- comparing the output

  datatype Entry = Entry(m: int, n: int)

  /** The entries the comparison loop visits: every row, every column but the last. */
  predicate Visited(M: nat, N: nat, e: Entry) {
    1 <= e.m <= M && 1 <= e.n < N
  }

  predicate Mismatch<T(==)>(M: nat, N: nat, output: seq<T>, expected: seq<T>, e: Entry)
    requires FeatureDims(M, N, 4) && |output| >= M * N && |expected| >= M * N
  {
    1 <= e.m <= M && 1 <= e.n <= N &&
    (FeatureSourceOfSlot(M, N, 4, e.m, e.n);
     output[FeatureSlot(M, N, 4, e.m, e.n)] != expected[(e.m - 1) * N + (e.n - 1)])
  }

  /** The mismatching entries the loop has passed when it is about to visit (m, n). */
  ghost predicate Found<T>(M: nat, N: nat, output: seq<T>, expected: seq<T>, m: int, n: int, e: Entry)
    requires FeatureDims(M, N, 4) && |output| >= M * N && |expected| >= M * N
  {
    Visited(M, N, e) && (e.m < m || (e.m == m && e.n < n)) && Mismatch(M, N, output, expected, e)
  }

  ghost function Mismatches<T>(M: nat, N: nat, output: seq<T>, expected: seq<T>): set<Entry>
    requires FeatureDims(M, N, 4) && |output| >= M * N && |expected| >= M * N
  {
    set m, n | 1 <= m <= M && 1 <= n < N && Mismatch(M, N, output, expected, Entry(m, n)) :: Entry(m, n)
  }

  /** Which entries are counted, in terms of the layout and the two buffers. */
  lemma MismatchesAre<T>(M: nat, N: nat, output: seq<T>, expected: seq<T>, e: Entry)
    requires FeatureDims(M, N, 4) && |output| >= M * N && |expected| >= M * N
    ensures e in Mismatches(M, N, output, expected) ==> 1 <= e.m <= M && 1 <= e.n < N
    ensures 1 <= e.m <= M && 1 <= e.n < N ==>
              && 0 <= FeatureData(N, M, 1, 4, e.n, e.m, 1) < M * N && 0 <= (e.m - 1) * N + (e.n - 1) < M * N
              && (e in Mismatches(M, N, output, expected) <==>
                  output[FeatureData(N, M, 1, 4, e.n, e.m, 1)] != expected[(e.m - 1) * N + (e.n - 1)])
  {
    hide FeatureData, FeatureSource;
    if 1 <= e.m <= M && 1 <= e.n < N { FeatureSourceOfSlot(M, N, 4, e.m, e.n); }
  }

  lemma MismatchAt<T>(M: nat, N: nat, output: seq<T>, expected: seq<T>, m: int, n: int)
    requires FeatureDims(M, N, 4) && |output| >= M * N && |expected| >= M * N && 1 <= m <= M && 1 <= n <= N
    ensures 0 <= FeatureSlot(M, N, 4, m, n) < M * N && 0 <= (m - 1) * N + (n - 1) < M * N
    ensures Mismatch(M, N, output, expected, Entry(m, n)) <==>
            output[FeatureSlot(M, N, 4, m, n)] != expected[(m - 1) * N + (n - 1)]
    ensures !Found(M, N, output, expected, m, n, Entry(m, n))
  {
    hide FeatureData, FeatureSource;
    FeatureSourceOfSlot(M, N, 4, m, n);
  }

  lemma FoundNone<T>(M: nat, N: nat, output: seq<T>, expected: seq<T>)
    requires FeatureDims(M, N, 4) && |output| >= M * N && |expected| >= M * N
    ensures forall e :: !Found(M, N, output, expected, 1, 1, e)
  {
  }

  lemma FoundNext<T>(M: nat, N: nat, output: seq<T>, expected: seq<T>, m: int, n: int)
    requires FeatureDims(M, N, 4) && |output| >= M * N && |expected| >= M * N && 1 <= m <= M && 1 <= n < N
    ensures forall e :: Found(M, N, output, expected, m, n + 1, e) <==>
                        (Found(M, N, output, expected, m, n, e)
                         || (e == Entry(m, n) && Mismatch(M, N, output, expected, e)))
  {
  }

  lemma FoundNextRow<T>(M: nat, N: nat, output: seq<T>, expected: seq<T>, m: int)
    requires FeatureDims(M, N, 4) && |output| >= M * N && |expected| >= M * N
    ensures forall e :: Found(M, N, output, expected, m + 1, 1, e) <==> Found(M, N, output, expected, m, N, e)
  {
  }

  lemma FoundAll<T>(M: nat, N: nat, output: seq<T>, expected: seq<T>)
    requires FeatureDims(M, N, 4) && |output| >= M * N && |expected| >= M * N
    ensures forall e :: Found(M, N, output, expected, M + 1, 1, e) <==> e in Mismatches(M, N, output, expected)
  {
  }

  method Verify<T(==)>(M: nat, N: nat, output: array<T>, expected: array<T>) returns (errors: nat)
    requires FeatureDims(M, N, 4) && output.Length >= M * N && expected.Length >= M * N
    ensures errors == |Mismatches(M, N, output[..], expected[..])|
  {
    hide FeatureData, FeatureSource, Mismatch, Found, Mismatches;
    errors := 0;
    ghost var out, exp := output[..], expected[..];
    FoundNone(M, N, out, exp);
    ghost var found: set<Entry> := {};
    var m := 1;
    while m <= M
      invariant 1 <= m <= M + 1 && errors == |found|
      invariant forall e :: e in found <==> Found(M, N, out, exp, m, 1, e)
    {
      var n := 1;
      while n < N
        invariant 1 <= n <= N && errors == |found|
        invariant forall e :: e in found <==> Found(M, N, out, exp, m, n, e)
      {
        FeatureSourceOfSlot(M, N, 4, m, n);
        var actual := output[FeatureData(N, M, 1, 4, n, m, 1)];
        var wanted := expected[(m - 1) * N + (n - 1)];
        FoundNext(M, N, out, exp, m, n);
        MismatchAt(M, N, out, exp, m, n);
        if actual != wanted {
          errors := errors + 1;
          found := found + {Entry(m, n)};
        }
        n := n + 1;
      }
      FoundNextRow(M, N, out, exp, m);
      m := m + 1;
    }
    FoundAll(M, N, out, exp);
    assert found == Mismatches(M, N, out, exp);
  }

  // ----- what the comparison can and cannot see

  function OutputAt<T>(M: nat, N: nat, output: seq<T>, m: int, n: int): T
    requires FeatureDims(M, N, 4) && |output| >= M * N && 1 <= m <= M && 1 <= n <= N
  {
    FeatureSourceOfSlot(M, N, 4, m, n);
    output[FeatureSlot(M, N, 4, m, n)]
  }

  function ExpectedAt<T>(M: nat, N: nat, expected: seq<T>, m: int, n: int): T
    requires FeatureDims(M, N, 4) && |expected| >= M * N && 1 <= m <= M && 1 <= n <= N
  {
    FeatureSourceOfSlot(M, N, 4, m, n);
    expected[(m - 1) * N + (n - 1)]
  }

  /** The comparison passes exactly when every column but the last is right. */
  lemma PassesIff<T>(M: nat, N: nat, output: seq<T>, expected: seq<T>)
    requires FeatureDims(M, N, 4) && |output| >= M * N && |expected| >= M * N
    ensures |Mismatches(M, N, output, expected)| == 0 <==>
            forall m, n :: 1 <= m <= M && 1 <= n < N ==>
                             OutputAt(M, N, output, m, n) == ExpectedAt(M, N, expected, m, n)
  {
    var bad := Mismatches(M, N, output, expected);
    forall m, n | 1 <= m <= M && 1 <= n < N
      ensures Entry(m, n) in bad <==> OutputAt(M, N, output, m, n) != ExpectedAt(M, N, expected, m, n)
    {
      assert Mismatch(M, N, output, expected, Entry(m, n)) <==> Entry(m, n) in bad;
    }
    if bad != {} {
      var e :| e in bad;
      assert OutputAt(M, N, output, e.m, e.n) != ExpectedAt(M, N, expected, e.m, e.n);
    }
  }

  ghost function ReadSlots(M: nat, N: nat): set<int>
    requires FeatureDims(M, N, 4)
  {
    set m, n | 1 <= m <= M && 1 <= n < N :: FeatureSlot(M, N, 4, m, n)
  }

  ghost function LastColumn(M: nat, N: nat, rows: nat): set<int>
    requires FeatureDims(M, N, 4) && rows <= M
  {
    set m | 1 <= m <= rows :: FeatureSlot(M, N, 4, m, N)
  }

  lemma {:induction false} LastColumnSize(M: nat, N: nat, rows: nat)
    requires FeatureDims(M, N, 4) && rows <= M
    ensures |LastColumn(M, N, rows)| == rows
  {
    if rows > 0 {
      LastColumnSize(M, N, rows - 1);
      var slot := FeatureSlot(M, N, 4, rows, N);
      forall m | 1 <= m < rows
        ensures FeatureSlot(M, N, 4, m, N) != slot
      {
        FeatureOrder(N, M, 1, 4, Coord(N, m, 1), Coord(N, rows, 1));
      }
      assert slot !in LastColumn(M, N, rows - 1);
      assert LastColumn(M, N, rows) == LastColumn(M, N, rows - 1) + {slot};
    }
  }

  /** Of the M*N slots, the M of the last column are the ones never read. */
  lemma UnreadSlots(M: nat, N: nat, s: int)
    requires FeatureDims(M, N, 4) && 0 <= s < M * N
    ensures s !in ReadSlots(M, N) <==> s in LastColumn(M, N, M)
    ensures |LastColumn(M, N, M)| == M
  {
    LastColumnSize(M, N, M);
    FeatureSlotOwner(M, N, 4, s);
    var o := FeatureOwner(M, 1, 4, s);
    if s in ReadSlots(M, N) && s in LastColumn(M, N, M) {
      var m, n :| 1 <= m <= M && 1 <= n < N && FeatureSlot(M, N, 4, m, n) == s;
      var m' :| 1 <= m' <= M && FeatureSlot(M, N, 4, m', N) == s;
      FeatureOrder(N, M, 1, 4, Coord(n, m, 1), Coord(N, m', 1));
    }
    assert FeatureSlot(M, N, 4, o.h, o.c) == s;
  }

  /** Outputs that differ only in the last column are indistinguishable. */
  lemma BlindToLastColumn<T>(M: nat, N: nat, out1: seq<T>, out2: seq<T>, expected: seq<T>)
    requires FeatureDims(M, N, 4) && |out1| >= M * N && |out2| >= M * N && |expected| >= M * N
    requires forall s :: 0 <= s < M * N && s !in LastColumn(M, N, M) ==> out1[s] == out2[s]
    ensures Mismatches(M, N, out1, expected) == Mismatches(M, N, out2, expected)
  {
    forall m, n | 1 <= m <= M && 1 <= n < N
      ensures OutputAt(M, N, out1, m, n) == OutputAt(M, N, out2, m, n)
    {
      FeatureSourceOfSlot(M, N, 4, m, n);
      UnreadSlots(M, N, FeatureSlot(M, N, 4, m, n));
    }
    forall e
      ensures e in Mismatches(M, N, out1, expected) <==> e in Mismatches(M, N, out2, expected)
    {
      if Visited(M, N, e) {
        var wanted := ExpectedAt(M, N, expected, e.m, e.n);
        assert Mismatch(M, N, out1, expected, e) <==> OutputAt(M, N, out1, e.m, e.n) != wanted;
        assert Mismatch(M, N, out2, expected, e) <==> OutputAt(M, N, out2, e.m, e.n) != wanted;
      }
    }
  }
}
