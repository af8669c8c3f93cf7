/** Matrix multiplication carried out on the packed buffers.

    The NPU is modelled by the layout contract alone: it walks the packed weight buffer from slot 0
    upwards and, for every row, adds one product into an output slot. */
module BlockedMatmul {
  import opened MixedRadix
  import opened Layouts
  import opened WeightLayouts
  import opened MatmulTest

  predicate Dims(M: nat, K: nat, N: nat) {
    M >= 1 && N >= 1 && WeightDims(K, N) && FeatureDims(M, K, 8) && FeatureDims(M, N, 4)
  }

  /** The alignment of K and N is all that is asked; M is free. */
  lemma DimsFromAlignment(M: nat, K: nat, N: nat)
    requires M >= 1 && K >= 1 && N >= 1 && K % 32 == 0 && N % 16 == 0
    ensures Dims(M, K, N)
  {
    StepDivMod(N / 16 * 4, 0, 4);
    StepDivMod(K / 32 * 4, 0, 8);
  }

  /** One multiply-accumulate: the product of input row `m` with weight slot `s`. */
  function Mac<S, T>(ar: Arith<S, T>, M: nat, K: nat, N: nat, input: seq<S>, weights: seq<S>, s: nat, m: nat,
                     out: seq<T>): (after: seq<T>)
    requires Dims(M, K, N) && |input| == M * K && |weights| == N * K && |out| == M * N && s < N * K && 1 <= m <= M
    ensures |after| == |out|
  {
    var o := WeightOwner(16, K, s);
    WeightBijection(Fp16, K, N, o, s);
    FeatureSourceOfSlot(M, K, 8, m, o.c);
    FeatureSourceOfSlot(M, N, 4, m, o.k);
    var p := FeatureSlot(M, N, 4, m, o.k);
    out[p := ar.add(out[p], ar.mul(input[FeatureSlot(M, K, 8, m, o.c)], weights[s]))]
  }

  /** The output buffer when all rows of the slots below `s` and the first `r` rows of slot `s` have
      been accumulated, starting from a cleared buffer. */
  function Sweep<S, T>(ar: Arith<S, T>, M: nat, K: nat, N: nat, input: seq<S>, weights: seq<S>, s: nat, r: nat)
    : (out: seq<T>)
    requires Dims(M, K, N) && |input| == M * K && |weights| == N * K
    requires r <= M && (s < N * K || (s == N * K && r == 0))
    ensures |out| == M * N
    decreases s, r
  {
    if r > 0 then Mac(ar, M, K, N, input, weights, s, r, Sweep(ar, M, K, N, input, weights, s, r - 1))
    else if s > 0 then Sweep(ar, M, K, N, input, weights, s - 1, M)
    else seq(M * N, _ => ar.zero)
  }

  lemma KernelSlotsIncrease(K: nat, n: int, k: int, k': int)
    requires K >= 32 && K % 32 == 0 && n >= 1 && 1 <= k < k' <= K
    ensures WeightFp16(K, n, k) < WeightFp16(K, n, k')
  {
    var x, y := Weight(n, k), Weight(n, k');
    WeightOrder(Fp16, K, x, y);
    assert Slot(Fp16, K, x) == WeightFp16(K, n, k) && Slot(Fp16, K, y) == WeightFp16(K, n, k');
  }

  /** At position (s, r) of the sweep, entry (m, n) has received exactly its first `d` products. */
  predicate Received(K: nat, m: int, n: int, s: int, r: int, d: int) {
    && 0 <= d <= K
    && (d > 0 ==> WeightFp16(K, n, d) < s || (WeightFp16(K, n, d) == s && m <= r))
    && (d < K ==> WeightFp16(K, n, d + 1) > s || (WeightFp16(K, n, d + 1) == s && m > r))
  }

  /** The step of entry (m, n) itself supplies its next product in order. */
  lemma OwnStep(K: nat, s: nat, m: int, n: int, d: int, k: int)
    requires K >= 32 && K % 32 == 0 && n >= 1 && 1 <= k <= K
    requires WeightFp16(K, n, k) == s && Received(K, m, n, s, m, d)
    ensures d > 0 && k == d && Received(K, m, n, s, m - 1, d - 1)
  {
    hide WeightFp16;
    KernelOrder(K, n, k, d);
    KernelOrder(K, n, k, d + 1);
    KernelOrder(K, n, d - 1, k);
  }

  lemma OwnerSlot(K: nat, N: nat, s: int)
    requires WeightDims(K, N) && 0 <= s < N * K
    ensures InKernels(N, K, WeightOwner(16, K, s))
    ensures WeightFp16(K, WeightOwner(16, K, s).k, WeightOwner(16, K, s).c) == s
  {
    hide WeightOwner, WeightFp16;
    WeightBijection(Fp16, K, N, WeightOwner(16, K, s), s);
  }

  /** Any other step leaves the count of entry (m, n) alone. */
  lemma OtherStep(M: nat, K: nat, N: nat, s: nat, r: nat, m: int, n: int, d: int, o: Weight)
    requires Dims(M, K, N) && 1 <= r <= M && 1 <= m <= M && 1 <= n <= N && Received(K, m, n, s, r, d)
    requires InKernels(N, K, o) && WeightFp16(K, o.k, o.c) == s && !(o.k == n && r == m)
    ensures Received(K, m, n, s, r - 1, d)
  {
    hide WeightFp16;
    NotMine(K, N, o, n, d);
    NotMine(K, N, o, n, d + 1);
  }

  lemma KernelOrder(K: nat, n: int, k: int, k': int)
    requires K >= 32 && K % 32 == 0 && n >= 1
    ensures 1 <= k <= K && 1 <= k' <= K ==>
              (WeightFp16(K, n, k) < WeightFp16(K, n, k') <==> k < k')
  {
    if 1 <= k < k' <= K { KernelSlotsIncrease(K, n, k, k'); }
    if 1 <= k' < k <= K { KernelSlotsIncrease(K, n, k', k); }
  }

  lemma NotMine(K: nat, N: nat, o: Weight, n: int, k: int)
    requires K >= 32 && K % 32 == 0 && N % 16 == 0 && InKernels(N, K, o) && 1 <= n <= N
    ensures 1 <= k <= K && o.k != n ==> WeightFp16(K, n, k) != WeightFp16(K, o.k, o.c)
  {
    if 1 <= k <= K {
      WeightOrder(Fp16, K, o, Weight(n, k));
      assert Slot(Fp16, K, o) == WeightFp16(K, o.k, o.c) && Slot(Fp16, K, Weight(n, k)) == WeightFp16(K, n, k);
    }
  }

  function MacOnMatrices<S, T>(ar: Arith<S, T>, M: nat, K: nat, N: nat, A: seq<S>, B: seq<S>, o: Weight, m: nat,
                               out: seq<T>): (after: seq<T>)
    requires Dims(M, K, N) && |A| == M * K && |B| == N * K && |out| == M * N && InKernels(N, K, o) && 1 <= m <= M
    ensures |after| == |out|
  {
    FeatureSourceOfSlot(M, N, 4, m, o.k);
    var p := FeatureSlot(M, N, 4, m, o.k);
    out[p := ar.add(out[p], ar.mul(Row(A, M, K, m - 1)[o.c - 1], Row(B, N, K, o.k - 1)[o.c - 1]))]
  }

  /** The product a step adds is the one of the two matrix entries behind the slots. */
  lemma MacProduct<S, T>(ar: Arith<S, T>, M: nat, K: nat, N: nat, A: seq<S>, B: seq<S>, s: nat, m: nat, out: seq<T>)
    requires Dims(M, K, N) && |A| == M * K && |B| == N * K && |out| == M * N && s < N * K && 1 <= m <= M
    ensures InKernels(N, K, WeightOwner(16, K, s))
    ensures Mac(ar, M, K, N, PackedInput(M, K, A), PackedWeights(K, N, B), s, m, out)
         == MacOnMatrices(ar, M, K, N, A, B, WeightOwner(16, K, s), m, out)
  {
    hide WeightOwner, WeightFp16, FeatureData, PackedInput, PackedWeights;
    var o := WeightOwner(16, K, s);
    WeightBijection(Fp16, K, N, o, s);
    PackedInputAt(M, K, A, m, o.c);
    PackedWeightAt(K, N, B, o.k, o.c);
  }

  /** A step touches the entry of its own row and kernel and no other. */
  lemma MacAt<S, T>(ar: Arith<S, T>, M: nat, K: nat, N: nat, A: seq<S>, B: seq<S>, o: Weight, r: nat,
                    before: seq<T>, m: int, n: int)
    requires Dims(M, K, N) && |A| == M * K && |B| == N * K && |before| == M * N
    requires InKernels(N, K, o) && 1 <= r <= M && 1 <= m <= M && 1 <= n <= N
    ensures OutputAt(M, N, MacOnMatrices(ar, M, K, N, A, B, o, r, before), m, n)
         == if o.k == n && r == m
            then ar.add(OutputAt(M, N, before, m, n),
                        ar.mul(Row(A, M, K, m - 1)[o.c - 1], Row(B, N, K, n - 1)[o.c - 1]))
            else OutputAt(M, N, before, m, n)
  {
    hide FeatureData, FeatureDigits, FeatureSource;
    FeatureOrder(N, M, 1, 4, Coord(o.k, r, 1), Coord(n, m, 1));
    FeatureSourceOfSlot(M, N, 4, m, n);
  }

  /** Entry (m, n) of the output holds the sum of its first `d` products. */
  predicate Holds<S, T(==)>(ar: Arith<S, T>, M: nat, K: nat, N: nat, A: seq<S>, B: seq<S>, out: seq<T>,
                              m: int, n: int, d: int)
    requires Dims(M, K, N) && |A| == M * K && |B| == N * K && |out| == M * N
    requires 1 <= m <= M && 1 <= n <= N && 0 <= d <= K
  {
    OutputAt(M, N, out, m, n) == Dot(ar, Row(A, M, K, m - 1)[..d], Row(B, N, K, n - 1)[..d])
  }

  lemma ClearedAt<T>(M: nat, N: nat, zero: T, m: int, n: int)
    requires FeatureDims(M, N, 4) && 1 <= m <= M && 1 <= n <= N
    ensures OutputAt(M, N, seq(M * N, _ => zero), m, n) == zero
  {
    hide FeatureSlot, FeatureSource;
    FeatureSourceOfSlot(M, N, 4, m, n);
  }

  lemma MacKeeps<S, T>(ar: Arith<S, T>, M: nat, K: nat, N: nat, A: seq<S>, B: seq<S>, s: nat, r: nat,
                       m: int, n: int, d: int, before: seq<T>)
    requires Dims(M, K, N) && |A| == M * K && |B| == N * K && |before| == M * N
    requires s < N * K && 1 <= r <= M && 1 <= m <= M && 1 <= n <= N && Received(K, m, n, s, r, d)
    requires forall d' :: Received(K, m, n, s, r - 1, d') ==> Holds(ar, M, K, N, A, B, before, m, n, d')
    ensures var after := Mac(ar, M, K, N, PackedInput(M, K, A), PackedWeights(K, N, B), s, r, before);
            Holds(ar, M, K, N, A, B, after, m, n, d)
  {
    hide WeightOwner, WeightFp16, OutputAt, PackedInput, PackedWeights, Mac, MacOnMatrices, Dot;
    var o := WeightOwner(16, K, s);
    OwnerSlot(K, N, s);
    MacProduct(ar, M, K, N, A, B, s, r, before);
    MacAt(ar, M, K, N, A, B, o, r, before, m, n);
    if o.k == n && r == m {
      OwnStep(K, s, m, n, d, o.c);
      assert Holds(ar, M, K, N, A, B, before, m, n, d - 1);
      DotNext(ar, Row(A, M, K, m - 1), Row(B, N, K, n - 1), d);
    } else {
      OtherStep(M, K, N, s, r, m, n, d, o);
      assert Holds(ar, M, K, N, A, B, before, m, n, d);
    }
  }

  /** What every step of the sweep keeps. */
  lemma {:induction false} SweepInvariant<S, T>(ar: Arith<S, T>, M: nat, K: nat, N: nat, A: seq<S>, B: seq<S>,
                                                s: nat, r: nat, m: int, n: int, d: int)
    requires Dims(M, K, N) && |A| == M * K && |B| == N * K
    requires r <= M && (s < N * K || (s == N * K && r == 0))
    requires 1 <= m <= M && 1 <= n <= N && Received(K, m, n, s, r, d)
    ensures Holds(ar, M, K, N, A, B, Sweep(ar, M, K, N, PackedInput(M, K, A), PackedWeights(K, N, B), s, r), m, n, d)
    decreases s, r
  {
    hide WeightFp16, OutputAt, PackedInput, PackedWeights, Mac;
    if r > 0 {
      var before := Sweep(ar, M, K, N, PackedInput(M, K, A), PackedWeights(K, N, B), s, r - 1);
      forall d' | Received(K, m, n, s, r - 1, d')
        ensures Holds(ar, M, K, N, A, B, before, m, n, d')
      {
        SweepInvariant(ar, M, K, N, A, B, s, r - 1, m, n, d');
      }
      MacKeeps(ar, M, K, N, A, B, s, r, m, n, d, before);
    } else if s > 0 {
      SweepInvariant(ar, M, K, N, A, B, s - 1, M, m, n, d);
    } else {
      if d > 0 { WeightSourceOfSlot(K, N, n, d); }
      ClearedAt(M, N, ar.zero, m, n);
    }
  }

  /** The blocked computation refines the row-major triple loop, entry by entry, with no assumption
      on the arithmetic: every entry is accumulated in the very order of the reference. */
  lemma BlockedRefinesReference<S, T>(ar: Arith<S, T>, M: nat, K: nat, N: nat, A: seq<S>, B: seq<S>, m: int, n: int)
    requires Dims(M, K, N) && |A| == M * K && |B| == N * K && 1 <= m <= M && 1 <= n <= N
    ensures OutputAt(M, N, Sweep(ar, M, K, N, PackedInput(M, K, A), PackedWeights(K, N, B), N * K, 0), m, n)
         == Product(ar, M, K, N, A, B, m - 1, n - 1)
  {
    WeightSourceOfSlot(K, N, n, K);
    SweepInvariant(ar, M, K, N, A, B, N * K, 0, m, n, K);
    var row, col := Row(A, M, K, m - 1), Row(B, N, K, n - 1);
    assert row[..K] == row && col[..K] == col;
  }

  /** Consequence for the whole test: when the reference loop filled `expected`, the comparison of
      the swept output counts no error. */
  lemma TestPasses<S, T>(ar: Arith<S, T>, M: nat, K: nat, N: nat, A: seq<S>, B: seq<S>, expected: seq<T>)
    requires Dims(M, K, N) && |A| == M * K && |B| == N * K && |expected| >= M * N
    requires forall p :: 0 <= p < M * N ==> expected[p] == ProductAt(ar, M, K, N, A, B, p)
    ensures var output := Sweep(ar, M, K, N, PackedInput(M, K, A), PackedWeights(K, N, B), N * K, 0);
            |Mismatches(M, N, output, expected)| == 0
  {
    var out := Sweep(ar, M, K, N, PackedInput(M, K, A), PackedWeights(K, N, B), N * K, 0);
    forall m, n | 1 <= m <= M && 1 <= n < N
      ensures OutputAt(M, N, out, m, n) == ExpectedAt(M, N, expected, m, n)
    {
      BlockedRefinesReference(ar, M, K, N, A, B, m, n);
      ReferenceAt(ar, M, K, N, A, B, m, n);
    }
    PassesIff(M, N, out, expected);
  }

  lemma ReferenceAt<S, T>(ar: Arith<S, T>, M: nat, K: nat, N: nat, A: seq<S>, B: seq<S>, m: int, n: int)
    requires Dims(M, K, N) && |A| == M * K && |B| == N * K && 1 <= m <= M && 1 <= n <= N
    ensures 0 <= (m - 1) * N + (n - 1) < M * N
    ensures ProductAt(ar, M, K, N, A, B, (m - 1) * N + (n - 1)) == Product(ar, M, K, N, A, B, m - 1, n - 1)
  {
    RowBounds(m - 1, M, N);
    StepDivMod(m - 1, n - 1, N);
  }
}
