/** Why the test may compare floats with `!=`: the sums are exact in any order and grouping.

    Floating-point addition is not modelled. It is any function that agrees with integer addition on
    non-negative operands whose sum is at most 2^24, as fp32 addition does; nothing is said about it
    beyond that, and in particular not that it is associative or commutative. */
module ExactSum {
  import opened Layouts
  import opened Permutation
  import opened MatmulTest
  import opened BlockedMatmul

  /** Largest n such that fp32 represents every integer up to n. */
  const EXACT := 0x100_0000
  /** Operands are `(int)(10.0 * r)` for r in [0, 1]. */
  const MAX_OPERAND := 10

  type FloatAdd = (int, int) -> int

  ghost predicate ExactAdd(add: FloatAdd) {
    forall x, y :: 0 <= x && 0 <= y && x + y <= EXACT ==> add(x, y) == x + y
  }

  ghost predicate ExactMul(mul: FloatAdd) {
    forall x, y :: 0 <= x <= MAX_OPERAND && 0 <= y <= MAX_OPERAND ==> mul(x, y) == x * y
  }

  /** The premises are met by any functions that are exact up to 2^24 and on operands up to 10, whatever they do
      beyond. */
  lemma BeyondIsFree(beyond: FloatAdd)
    ensures ExactAdd((x: int, y: int) => if 0 <= x && 0 <= y && x + y <= 0x100_0000 then x + y else beyond(x, y))
    ensures ExactMul((x: int, y: int) => if 0 <= x <= 10 && 0 <= y <= 10 then x * y else beyond(x, y))
  {
  }

  // ----- sums of integer sequences

  function Sum(a: seq<int>): int {
    if |a| == 0 then 0 else Sum(a[..|a| - 1]) + a[|a| - 1]
  }

  lemma {:induction false} SumConcat(a: seq<int>, b: seq<int>)
    ensures Sum(a + b) == Sum(a) + Sum(b)
  {
    if |b| == 0 {
      assert a + b == a;
    } else {
      var l := |b| - 1;
      assert (a + b)[..|a + b| - 1] == a + b[..l];
      SumConcat(a, b[..l]);
    }
  }

  predicate Bounded(a: seq<int>, high: nat) {
    forall i :: 0 <= i < |a| ==> 0 <= a[i] <= high
  }

  lemma {:induction false} SumBound(a: seq<int>, high: nat)
    requires Bounded(a, high)
    ensures 0 <= Sum(a) <= high * |a|
  {
    if |a| > 0 {
      SumBound(a[..|a| - 1], high);
      assert high * (|a| - 1) + high == high * |a|;
    }
  }

  lemma {:induction false} SumWithout(b: seq<int>, j: nat)
    requires j < |b|
    ensures Sum(b) == Sum(Without(b, j)) + b[j]
  {
    var n := |b| - 1;
    if j == n {
      assert Without(b, j) == b[..n];
    } else {
      SumWithout(b[..n], j);
      assert Without(b, j)[..n - 1] == Without(b[..n], j);
    }
  }

  lemma SumOne(x: int)
    ensures Sum([x]) == x
  {
    assert [x][..0] == [];
  }

  lemma {:induction false} SumPermuted(a: seq<int>, b: seq<int>, f: seq<int>)
    requires |a| == |b| == |f| && IsPermutation(f)
    requires forall i :: 0 <= i < |a| ==> a[i] == b[f[i]]
    ensures Sum(a) == Sum(b)
  {
    if |a| > 0 {
      var n := |a| - 1;
      var j := f[n];
      RestIndexes(a, b, f);
      SumPermuted(a[..n], Without(b, j), Rest(f));
      SumWithout(b, j);
    }
  }

  // ----- any order, any grouping

  /** A way of adding up terms: which term each leaf takes, and how partial sums are combined. */
  datatype Tree = Leaf(i: int) | Node(left: Tree, right: Tree)

  function Leaves(t: Tree): seq<int> {
    match t
    case Leaf(i) => [i]
    case Node(l, r) => Leaves(l) + Leaves(r)
  }

  predicate Names(t: Tree, terms: seq<int>) {
    match t
    case Leaf(i) => 0 <= i < |terms|
    case Node(l, r) => Names(l, terms) && Names(r, terms)
  }

  predicate Indexes(f: seq<int>, terms: seq<int>) {
    forall j :: 0 <= j < |f| ==> 0 <= f[j] < |terms|
  }

  lemma {:induction false} NamesLeaves(t: Tree, terms: seq<int>)
    ensures Names(t, terms) <==> Indexes(Leaves(t), terms)
  {
    match t
    case Leaf(i) =>
      assert Leaves(t)[0] == i;
    case Node(l, r) =>
      NamesLeaves(l, terms);
      NamesLeaves(r, terms);
      assert forall j :: 0 <= j < |Leaves(l)| ==> Leaves(l)[j] == Leaves(t)[j];
      assert forall j :: 0 <= j < |Leaves(r)| ==> Leaves(r)[j] == Leaves(t)[j + |Leaves(l)|];
  }

  function Eval(add: FloatAdd, t: Tree, terms: seq<int>): int
    requires Names(t, terms)
  {
    match t
    case Leaf(i) => terms[i]
    case Node(l, r) => add(Eval(add, l, terms), Eval(add, r, terms))
  }

  function Pick(f: seq<int>, terms: seq<int>): (p: seq<int>)
    requires Indexes(f, terms)
    ensures |p| == |f| && forall j :: 0 <= j < |f| ==> p[j] == terms[f[j]]
  {
    seq(|f|, j requires 0 <= j < |f| => terms[f[j]])
  }

  /** Adding the terms one by one, in the order `f`. */
  function OneByOne(f: seq<int>): Tree
    requires |f| > 0
  {
    if |f| == 1 then Leaf(f[0]) else Node(OneByOne(f[..|f| - 1]), Leaf(f[|f| - 1]))
  }

  function RunningSum(add: FloatAdd, a: seq<int>): int
    requires |a| > 0
  {
    if |a| == 1 then a[0] else add(RunningSum(add, a[..|a| - 1]), a[|a| - 1])
  }

  /** Every order is among the trees, and its value is what a loop over that order computes. */
  lemma {:induction false} EveryOrderIsATree(add: FloatAdd, f: seq<int>, terms: seq<int>)
    requires |f| > 0 && Indexes(f, terms)
    ensures Leaves(OneByOne(f)) == f && Names(OneByOne(f), terms)
    ensures Eval(add, OneByOne(f), terms) == RunningSum(add, Pick(f, terms))
  {
    if |f| > 1 {
      var l := |f| - 1;
      EveryOrderIsATree(add, f[..l], terms);
      assert f == f[..l] + [f[l]] && Pick(f, terms)[..l] == Pick(f[..l], terms);
    } else {
      assert f == [f[0]];
    }
  }

  /** Whatever subset of the terms a tree adds, and however, the result is their integer sum as long
      as that sum cannot exceed 2^24. The same holds of each subtree: every partial sum is exact. */
  lemma {:induction false} TreeIsExact(add: FloatAdd, t: Tree, terms: seq<int>, high: nat)
    requires ExactAdd(add) && Names(t, terms) && Bounded(terms, high) && high * |Leaves(t)| <= 0x100_0000
    ensures Indexes(Leaves(t), terms)
    ensures Eval(add, t, terms) == Sum(Pick(Leaves(t), terms)) <= high * |Leaves(t)|
  {
    NamesLeaves(t, terms);
    match t
    case Leaf(i) =>
      assert Pick(Leaves(t), terms) == [terms[i]];
      SumOne(terms[i]);
    case Node(l, r) =>
      assert |Leaves(t)| == |Leaves(l)| + |Leaves(r)|;
      Spread(high, |Leaves(l)|, |Leaves(r)|);
      TreeIsExact(add, l, terms, high);
      TreeIsExact(add, r, terms, high);
      PickConcat(Leaves(l), Leaves(r), terms, high);
  }

  lemma Spread(high: nat, x: nat, y: nat)
    ensures high * (x + y) == high * x + high * y && high * x >= 0 && high * y >= 0
  {
  }

  lemma PickConcat(f: seq<int>, g: seq<int>, terms: seq<int>, high: nat)
    requires Indexes(f, terms) && Indexes(g, terms) && Bounded(terms, high)
    ensures Indexes(f + g, terms) && Sum(Pick(f + g, terms)) == Sum(Pick(f, terms)) + Sum(Pick(g, terms))
    ensures Sum(Pick(f, terms)) >= 0 && Sum(Pick(g, terms)) >= 0
  {
    assert Pick(f + g, terms) == Pick(f, terms) + Pick(g, terms);
    SumConcat(Pick(f, terms), Pick(g, terms));
    SumBound(Pick(f, terms), high);
    SumBound(Pick(g, terms), high);
  }

  /** Two trees over all the terms, each once, agree. */
  lemma OrderIndependent(add: FloatAdd, t: Tree, terms: seq<int>, high: nat)
    requires ExactAdd(add) && Bounded(terms, high) && high * |terms| <= 0x100_0000
    requires |Leaves(t)| == |terms| && IsPermutation(Leaves(t))
    ensures Names(t, terms) && Eval(add, t, terms) == Sum(terms)
  {
    NamesLeaves(t, terms);
    TreeIsExact(add, t, terms, high);
    SumPermuted(Pick(Leaves(t), terms), terms, Leaves(t));
  }

  // ----- the reference and the packed buffers

  function Products(xs: seq<int>, ys: seq<int>): (p: seq<int>)
    requires |xs| == |ys|
    ensures |p| == |xs|
  {
    seq(|xs|, i requires 0 <= i < |xs| => xs[i] * ys[i])
  }

  lemma ProductsBounded(xs: seq<int>, ys: seq<int>)
    requires |xs| == |ys| && Bounded(xs, MAX_OPERAND) && Bounded(ys, MAX_OPERAND)
    ensures Bounded(Products(xs, ys), MAX_OPERAND * MAX_OPERAND)
  {
    forall i | 0 <= i < |xs|
      ensures 0 <= xs[i] * ys[i] <= MAX_OPERAND * MAX_OPERAND
    {
      assert xs[i] * ys[i] <= MAX_OPERAND * ys[i];
    }
  }

  /** The reference's running sum in floats is the integer dot product. */
  lemma {:induction false} DotIsExact(add: FloatAdd, mul: FloatAdd, xs: seq<int>, ys: seq<int>)
    requires ExactAdd(add) && ExactMul(mul)
    requires |xs| == |ys| <= 4096 && Bounded(xs, 10) && Bounded(ys, 10)
    ensures Dot(Arith(0, add, mul), xs, ys) == Sum(Products(xs, ys))
  {
    if |xs| > 0 {
      var l := |xs| - 1;
      DotIsExact(add, mul, xs[..l], ys[..l]);
      assert Products(xs, ys)[..l] == Products(xs[..l], ys[..l]);
      ProductsBounded(xs, ys);
      ProductsBounded(xs[..l], ys[..l]);
      SumBound(Products(xs[..l], ys[..l]), MAX_OPERAND * MAX_OPERAND);
    }
  }

  /** The K products of entry (m, n), read from the packed buffers. */
  function PackedProducts(M: nat, K: nat, N: nat, input: seq<int>, weights: seq<int>, m: int, n: int): (p: seq<int>)
    requires Dims(M, K, N) && |input| == M * K && |weights| == N * K && 1 <= m <= M && 1 <= n <= N
    ensures |p| == K
  {
    seq(K, i requires 0 <= i < K =>
      (FeatureSourceOfSlot(M, K, 8, m, i + 1);
       WeightSourceOfSlot(K, N, n, i + 1);
       input[FeatureSlot(M, K, 8, m, i + 1)] * weights[WeightFp16(K, n, i + 1)]))
  }

  lemma PackedProductsAre(M: nat, K: nat, N: nat, A: seq<int>, B: seq<int>, m: int, n: int)
    requires Dims(M, K, N) && |A| == M * K && |B| == N * K && 1 <= m <= M && 1 <= n <= N
    ensures PackedProducts(M, K, N, PackedInput(M, K, A), PackedWeights(K, N, B), m, n)
         == Products(Row(A, M, K, m - 1), Row(B, N, K, n - 1))
  {
    hide WeightFp16, FeatureSlot, PackedInput, PackedWeights, WeightSource, FeatureSource;
    forall i | 0 <= i < K
      ensures PackedProducts(M, K, N, PackedInput(M, K, A), PackedWeights(K, N, B), m, n)[i]
           == Products(Row(A, M, K, m - 1), Row(B, N, K, n - 1))[i]
    {
      PackedInputAt(M, K, A, m, i + 1);
      PackedWeightAt(K, N, B, n, i + 1);
    }
  }

  /** For the operands and sizes of the test, a device that adds the K products of an entry in any
      order and grouping gets, in floats, the very value of the reference loop. */
  lemma AnyGroupingMatchesReference(add: FloatAdd, mul: FloatAdd, M: nat, K: nat, N: nat, A: seq<int>, B: seq<int>,
                                    m: int, n: int, t: Tree)
    requires ExactAdd(add) && ExactMul(mul) && Dims(M, K, N) && K <= 4096
    requires |A| == M * K && |B| == N * K && Bounded(A, 10) && Bounded(B, 10)
    requires 1 <= m <= M && 1 <= n <= N && |Leaves(t)| == K && IsPermutation(Leaves(t))
    ensures var terms := PackedProducts(M, K, N, PackedInput(M, K, A), PackedWeights(K, N, B), m, n);
            Names(t, terms) && Eval(add, t, terms) == Product(Arith(0, add, mul), M, K, N, A, B, m - 1, n - 1)
  {
    var row, col := Row(A, M, K, m - 1), Row(B, N, K, n - 1);
    PackedProductsAre(M, K, N, A, B, m, n);
    ProductsBounded(row, col);
    DotIsExact(add, mul, row, col);
    OrderIndependent(add, t, Products(row, col), MAX_OPERAND * MAX_OPERAND);
  }

  /** Consequence for the whole test: if every compared slot holds the sum of its products in some
      order and grouping, chosen per entry, the comparison with the float reference finds no error. */
  lemma AnyGroupingPasses(add: FloatAdd, mul: FloatAdd, M: nat, K: nat, N: nat, A: seq<int>, B: seq<int>,
                          trees: (int, int) -> Tree, output: seq<int>, expected: seq<int>)
    requires ExactAdd(add) && ExactMul(mul) && Dims(M, K, N) && K <= 4096
    requires |A| == M * K && |B| == N * K && Bounded(A, 10) && Bounded(B, 10)
    requires |output| == M * N && |expected| == M * N
    requires forall p :: 0 <= p < M * N ==> expected[p] == ProductAt(Arith(0, add, mul), M, K, N, A, B, p)
    requires forall m, n :: 1 <= m <= M && 1 <= n < N ==>
               && |Leaves(trees(m, n))| == K && IsPermutation(Leaves(trees(m, n)))
               && var terms := PackedProducts(M, K, N, PackedInput(M, K, A), PackedWeights(K, N, B), m, n);
                  Names(trees(m, n), terms) && OutputAt(M, N, output, m, n) == Eval(add, trees(m, n), terms)
    ensures |Mismatches(M, N, output, expected)| == 0
  {
    hide Eval, PackedProducts, PackedInput, PackedWeights, OutputAt, Product, ProductAt, Leaves, Names, Mismatches;
    var ar := Arith(0, add, mul);
    forall m, n | 1 <= m <= M && 1 <= n < N
      ensures OutputAt(M, N, output, m, n) == ExpectedAt(M, N, expected, m, n)
    {
      AnyGroupingMatchesReference(add, mul, M, K, N, A, B, m, n, trees(m, n));
      ReferenceAt(ar, M, K, N, A, B, m, n);
    }
    PassesIff(M, N, output, expected);
  }
}
