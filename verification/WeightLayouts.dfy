/** The two weight layouts: kernels in groups of 16 (fp16) or 32 (int8), channels in groups of 32.

    Both are one formula with a different kernel group size `G`. */
module WeightLayouts {
  import opened MixedRadix
  import opened Layouts

  /** A weight: kernel (output column) and channel, both counted from 1. */
  datatype Weight = Weight(k: int, c: int)

  predicate InKernels(N: int, C: int, x: Weight) {
    1 <= x.k <= N && 1 <= x.c <= C
  }

  function Blocked(G: int, C: int, x: Weight): int
    requires G >= 1
  {
    (x.k - 1) / G * G * C + (x.c - 1) / 32 * 32 * G + (x.k - 1) % G * 32 + (x.c - 1) % 32
  }

  lemma WeightIsBlocked(C: int, x: Weight)
    requires x.k >= 1 && x.c >= 1
    ensures WeightFp16(C, x.k, x.c) == Blocked(16, C, x)
    ensures WeightInt8(C, x.k, x.c) == Blocked(32, C, x)
  {
    TruncationAgrees(x.k - 1, 16);
    TruncationAgrees(x.k - 1, 32);
    TruncationAgrees(x.c - 1, 32);
  }

  function WeightDigits(G: int, x: Weight): Digits
    requires G >= 1
  {
    Digits((x.k - 1) / G, (x.c - 1) / 32, (x.k - 1) % G, (x.c - 1) % 32)
  }

  function WeightOwner(G: int, C: int, s: int): Weight
    requires G >= 1 && C >= 32
  {
    var x := Unrank(s, Radix(C / 32, G, 32));
    Weight(x.a * G + x.c + 1, x.b * 32 + x.d + 1)
  }

  lemma SameDigits(G: int, x: Weight, y: Weight)
    requires G >= 1 && WeightDigits(G, x) == WeightDigits(G, y)
    ensures x == y
  {
    assert x.k - 1 == (x.k - 1) / G * G + (x.k - 1) % G;
    assert y.k - 1 == (y.k - 1) / G * G + (y.k - 1) % G;
  }

  predicate Aligned(G: int, C: int) {
    G >= 1 && C >= 32 && C % 32 == 0
  }

  lemma BlockedIsRank(G: int, C: int, x: Weight)
    requires Aligned(G, C) && x.k >= 1 && 1 <= x.c <= C
    ensures Proper(WeightDigits(G, x), Radix(C / 32, G, 32))
    ensures Blocked(G, C, x) == Rank(WeightDigits(G, x), Radix(C / 32, G, 32))
  {
    var B, d := C / 32, WeightDigits(G, x);
    StepOrder(d.b, d.d, B, 0, 32);
    calc {
      ((d.a * B + d.b) * G + d.c) * 32 + d.d;
      d.a * B * G * 32 + d.b * G * 32 + d.c * 32 + d.d;
      { assert d.a * B * G * 32 == d.a * G * (32 * B); }
      d.a * G * C + d.b * 32 * G + d.c * 32 + d.d;
    }
  }

  /** With C a multiple of 32, slots are ordered by (kernel group, channel group, kernel within its
      group, channel within its group), and no two weights share one. */
  lemma BlockedOrder(G: int, C: int, x: Weight, y: Weight)
    requires Aligned(G, C) && x.k >= 1 && y.k >= 1 && 1 <= x.c <= C && 1 <= y.c <= C
    ensures Blocked(G, C, x) < Blocked(G, C, y) <==> LexLess(WeightDigits(G, x), WeightDigits(G, y))
    ensures Blocked(G, C, x) == Blocked(G, C, y) <==> x == y
  {
    BlockedIsRank(G, C, x);
    BlockedIsRank(G, C, y);
    RankOrder(WeightDigits(G, x), WeightDigits(G, y), Radix(C / 32, G, 32));
    if WeightDigits(G, x) == WeightDigits(G, y) { SameDigits(G, x, y); }
  }

  /** The explicit inverse, from both sides. It covers every slot, whatever the kernel count. */
  lemma BlockedInverse(G: int, C: int, x: Weight, s: int)
    requires Aligned(G, C) && s >= 0
    ensures x.k >= 1 && 1 <= x.c <= C ==> Blocked(G, C, x) >= 0 && WeightOwner(G, C, Blocked(G, C, x)) == x
    ensures var o := WeightOwner(G, C, s); o.k >= 1 && 1 <= o.c <= C && Blocked(G, C, o) == s
  {
    var r := Radix(C / 32, G, 32);
    if x.k >= 1 && 1 <= x.c <= C {
      BlockedIsRank(G, C, x);
      UnrankRank(WeightDigits(G, x), r);
      RankBound(WeightDigits(G, x), r, 0);
      assert x.k - 1 == (x.k - 1) / G * G + (x.k - 1) % G;
    }
    var d, o := Unrank(s, r), WeightOwner(G, C, s);
    RankUnrank(s, r);
    StepDivMod(d.a, d.c, G);
    StepDivMod(d.b, d.d, 32);
    StepOrder(d.b, d.d, C / 32, 0, 32);
    assert d.a * G >= 0;
    BlockedIsRank(G, C, o);
  }

  lemma Units(n: int, G: int, B: int)
    ensures n * B * G * 32 == n * G * (B * 32)
  {
  }

  /** With N a multiple of G as well, the slots of N kernels are exactly [0, N*C). */
  lemma BlockedOnto(G: int, C: int, N: int, x: Weight)
    requires Aligned(G, C) && N >= 0 && N % G == 0 && x.k >= 1 && 1 <= x.c <= C
    ensures 0 <= Blocked(G, C, x) < N * C <==> x.k <= N
  {
    hide Blocked, Rank, Proper;
    var n, B := N / G, C / 32;
    assert N == n * G && C == B * 32;
    BlockedIsRank(G, C, x);
    RankBound(WeightDigits(G, x), Radix(B, G, 32), n);
    Units(n, G, B);
    GroupsOf(x.k - 1, n, G);
  }

  lemma GroupsOf(k: int, n: int, G: int)
    requires G >= 1
    ensures k / G < n <==> k < n * G
  {
    assert k == k / G * G + k % G;
    StepOrder(k / G, k % G, n, 0, G);
  }

  // ----- the alignment conditions are sharp

  ghost predicate BlockedFits(G: int, C: int, N: int)
    requires G >= 1
  {
    forall x :: InKernels(N, C, x) ==> Blocked(G, C, x) < N * C
  }

  /** For aligned C, packing N kernels stays inside N*C slots exactly when the last kernel group is
      full or there is only one channel group. */
  lemma BlockedFitsIff(G: int, C: int, N: int)
    requires Aligned(G, C) && N >= 1
    ensures BlockedFits(G, C, N) <==> N % G == 0 || C == 32
  {
    if N % G == 0 {
      forall x | InKernels(N, C, x)
        ensures Blocked(G, C, x) < N * C
      {
        BlockedOnto(G, C, N, x);
      }
    } else if C == 32 {
      forall x | InKernels(N, C, x)
        ensures Blocked(G, C, x) < N * C
      {
        assert x.k - 1 == (x.k - 1) / G * G + (x.k - 1) % G;
      }
    } else {
      BlockedOverrun(G, C, N);
    }
  }

  lemma BlockedOverrun(G: int, C: int, N: int)
    requires Aligned(G, C) && N >= 1 && N % G != 0 && C != 32
    ensures !BlockedFits(G, C, N)
  {
    hide Blocked, WeightDigits;
    var last, B, P, t := Weight(N, C), C / 32, N / G, N % G;
    LastWeight(G, C, N);
    BlockedIsRank(G, C, last);
    OverrunRank(B, G, P, t);
    assert N == P * G + t && C == B * 32;
    BlocksOf(N, B);
    assert InKernels(N, C, last);
  }

  lemma LastWeight(G: int, C: int, N: int)
    requires Aligned(G, C) && N >= 1 && N % G != 0
    ensures WeightDigits(G, Weight(N, C)) == Digits(N / G, C / 32 - 1, N % G - 1, 31)
  {
    assert N == N / G * G + N % G;
    PreviousDigits(N / G, N % G, G);
  }

  lemma BlocksOf(N: int, B: int)
    ensures N * B * 32 == N * (B * 32)
  {
  }

  lemma OverrunRank(B: int, G: int, P: int, t: int)
    requires B > 1 && 0 <= t < G
    ensures Rank(Digits(P, B - 1, t - 1, 31), Radix(B, G, 32)) >= (P * G + t) * B * 32
  {
    LastElement(B, t, G);
    Distribute(P * B, B - 1, G);
    Distribute(P * G, t, B);
    assert P * B * G == P * G * B;
  }

  ghost predicate Collide(G: int, C: int, N: int, x: Weight, y: Weight)
    requires G >= 1
  {
    InKernels(N, C, x) && InKernels(N, C, y) && x != y && Blocked(G, C, x) == Blocked(G, C, y)
  }

  ghost predicate Injective(G: int, C: int, N: int)
    requires G >= 1
  {
    forall x, y :: !Collide(G, C, N, x, y)
  }

  lemma FirstGroup(G: int, C: int, x: Weight)
    requires G >= 1 && 1 <= x.k <= G && 1 <= x.c <= C
    ensures Proper(WeightDigits(G, x), Radix(C, G, 32))
    ensures Blocked(G, C, x) == Rank(WeightDigits(G, x), Radix(C, G, 32))
  {
    var d := WeightDigits(G, x);
    StepDivMod(0, x.k - 1, G);
    assert d.a == 0 && d.a * G * C == 0 && d.a * C == 0;
    calc { (d.b * G + d.c) * 32 + d.d; d.b * 32 * G + d.c * 32 + d.d; }
  }

  /** One kernel group never collides with itself, whatever the channel count. */
  lemma OneGroup(G: int, C: int, N: int)
    requires G >= 1 && N <= G
    ensures Injective(G, C, N)
  {
    forall x, y
      ensures !Collide(G, C, N, x, y)
    {
      if InKernels(N, C, x) && InKernels(N, C, y) {
        FirstGroup(G, C, x);
        FirstGroup(G, C, y);
        RankOrder(WeightDigits(G, x), WeightDigits(G, y), Radix(C, G, 32));
        if WeightDigits(G, x) == WeightDigits(G, y) { SameDigits(G, x, y); }
      }
    }
  }

  lemma AlignedInjective(G: int, C: int, N: int)
    requires Aligned(G, C)
    ensures Injective(G, C, N)
  {
    forall x, y
      ensures !Collide(G, C, N, x, y)
    {
      if InKernels(N, C, x) && InKernels(N, C, y) { BlockedOrder(G, C, x, y); }
    }
  }

  /** int8: the slots of distinct weights are distinct exactly when C is a multiple of 32 or the
      kernels fill at most one group. The collision pairs kernel 33 with kernel C%32+1. */
  lemma Int8InjectiveIff(C: int, N: int)
    requires C >= 1 && N >= 1
    ensures Injective(32, C, N) <==> C % 32 == 0 || N <= 32
  {
    if N <= 32 {
      OneGroup(32, C, N);
    } else if C % 32 == 0 {
      AlignedInjective(32, C, N);
    } else {
      Int8Slots(C / 32, C % 32, C);
      assert Collide(32, C, N, Weight(C % 32 + 1, C / 32 * 32 + 1), Weight(33, 1)) by { hide Blocked; }
    }
  }

  lemma Int8Slots(q: int, r: int, C: int)
    requires 0 <= r < 32 && q >= 0 && C == q * 32 + r
    ensures Blocked(32, C, Weight(r + 1, q * 32 + 1)) == 32 * C == Blocked(32, C, Weight(33, 1))
  {
    assert r / 32 == 0 && q * 32 / 32 == q;
  }

  /** Two weights of the same slot, for every channel count that is not a multiple of 32. A second
      kernel group starts at slot 16*C, inside the first group's partial channel group. */
  function CollidingPair(C: int): (Weight, Weight)
  {
    var R, last := C % 32, C / 32 * 32;
    if R % 2 == 0 then (Weight(R / 2 + 1, last + 1), Weight(17, 1))
    else if R > 16 then (Weight((R - 1) / 2 + 1, last + 17), Weight(17, 1))
    else if C > 32 then (Weight((R + 1) / 2 + 1, last + 1), Weight(17, 17))
    else (Weight(C + 1, 1), Weight(33, 1))
  }

  lemma PairCollides(C: int, N: int)
    requires C >= 1 && C % 32 != 0 && N >= 17
    requires C % 2 == 1 && C <= 15 ==> N >= 33
    ensures Collide(16, C, N, CollidingPair(C).0, CollidingPair(C).1)
  {
    var x, y := CollidingPair(C).0, CollidingPair(C).1;
    hide Blocked;
    EarlySlot(C, x);
    LateSlot(C, y);
    assert C == C / 32 * 32 + C % 32;
    assert (x.c - 1) / 32 == C / 32;
  }

  /** A weight of the first kernel group. */
  lemma EarlySlot(C: int, x: Weight)
    requires 1 <= x.k <= 16 && x.c >= 1
    ensures Blocked(16, C, x) == (x.c - 1) / 32 * 512 + (x.k - 1) * 32 + (x.c - 1) % 32
  {
  }

  /** A weight of a later kernel group and the first channel group, for the first kernel of its group. */
  lemma LateSlot(C: int, y: Weight)
    requires (y.k == 17 || y.k == 33) && 1 <= y.c <= 32
    ensures Blocked(16, C, y) == (y.k - 1) * C + y.c - 1
  {
  }

  /** fp16: exact. Only odd C up to 15 escape the collision with the second kernel group, and the
      third group catches them. */
  lemma Fp16InjectiveIff(C: int, N: int)
    requires C >= 1 && N >= 1
    ensures Injective(16, C, N) <==> C % 32 == 0 || N <= 16 || (C % 2 == 1 && C <= 15 && N <= 32)
  {
    if N <= 16 {
      OneGroup(16, C, N);
    } else if C % 32 == 0 {
      AlignedInjective(16, C, N);
    } else if C % 2 == 1 && C <= 15 && N <= 32 {
      TwoGroupsOddNarrow(C, N);
    } else {
      PairCollides(C, N);
    }
  }

  /** With one odd, narrow channel group and two kernel groups the low four bits tell channels
      apart and bit four tells the groups apart. */
  lemma NarrowSlot(C: int, x: Weight)
    requires 1 <= C <= 15 && C % 2 == 1 && 1 <= x.k <= 32 && 1 <= x.c <= C
    ensures Blocked(16, C, x) % 16 == x.c - 1
    ensures Blocked(16, C, x) / 16 == (x.k - 1) / 16 * C + (x.k - 1) % 16 * 2
    ensures Blocked(16, C, x) / 16 % 2 == (x.k - 1) / 16
  {
    var a, b := (x.k - 1) / 16, (x.k - 1) % 16;
    assert Blocked(16, C, x) == (a * C + b * 2) * 16 + (x.c - 1);
    StepDivMod(a * C + b * 2, x.c - 1, 16);
    if a == 0 { StepDivMod(b, 0, 2); } else { StepDivMod(C / 2 + b, 1, 2); }
  }

  lemma TwoGroupsOddNarrow(C: int, N: int)
    requires 1 <= C <= 15 && C % 2 == 1 && N <= 32
    ensures Injective(16, C, N)
  {
    forall x, y
      ensures !Collide(16, C, N, x, y)
    {
      if InKernels(N, C, x) && InKernels(N, C, y) {
        NarrowSlot(C, x);
        NarrowSlot(C, y);
      }
    }
  }

  // ----- the same facts about the source's two functions

  datatype Precision = Fp16 | Int8 {
    function Group(): int {
      if Fp16? then 16 else 32
    }
  }

  function Slot(p: Precision, C: int, x: Weight): int {
    match p
    case Fp16 => WeightFp16(C, x.k, x.c)
    case Int8 => WeightInt8(C, x.k, x.c)
  }

  /** A weight whose kernel and channel are given by group and position in the group. */
  lemma BlockedAt(G: int, C: int, x: Weight, kg: int, kr: int, cg: int, cr: int)
    requires x.k - 1 == kg * G + kr && 0 <= kr < G && x.c - 1 == cg * 32 + cr && 0 <= cr < 32
    ensures Blocked(G, C, x) == kg * G * C + cg * 32 * G + kr * 32 + cr
  {
    StepDivMod(kg, kr, G);
    StepDivMod(cg, cr, 32);
  }

  lemma BlockedStrides(G: int, C: int, k: int, c: int)
    requires G >= 1 && k >= 1 && c >= 1
    ensures Blocked(G, C, Weight(1, 1)) == 0
    ensures c % 32 != 0 ==> Blocked(G, C, Weight(k, c + 1)) == Blocked(G, C, Weight(k, c)) + 1
    ensures k % G != 0 ==> Blocked(G, C, Weight(k + 1, c)) == Blocked(G, C, Weight(k, c)) + 32
    ensures Blocked(G, C, Weight(k, c + 32)) == Blocked(G, C, Weight(k, c)) + 32 * G
    ensures Blocked(G, C, Weight(k + G, c)) == Blocked(G, C, Weight(k, c)) + G * C
  {
    hide Blocked;
    var kg, kr, cg, cr := (k - 1) / G, (k - 1) % G, (c - 1) / 32, (c - 1) % 32;
    ChannelSteps(k, G, kg, kr);
    ChannelSteps(c, 32, cg, cr);
    Distribute(kg * G, G, C);
    Distribute(cg * 32, 32, G);
    Distribute(kg, 1, G);
    BlockedAt(G, C, Weight(1, 1), 0, 0, 0, 0);
    BlockedAt(G, C, Weight(k, c), kg, kr, cg, cr);
    BlockedAt(G, C, Weight(k, c + 32), kg, kr, cg + 1, cr);
    BlockedAt(G, C, Weight(k + G, c), kg + 1, kr, cg, cr);
    if c % 32 != 0 { BlockedAt(G, C, Weight(k, c + 1), kg, kr, cg, cr + 1); }
    if k % G != 0 { BlockedAt(G, C, Weight(k + 1, c), kg, kr + 1, cg, cr); }
  }

  /** The strides of the two functions: 1 from channel to channel and 32 from kernel to kernel inside a group,
      512 or 1024 to the next channel group, 16*C or 32*C to the next kernel group, starting at 0. */
  lemma Fp16Strides(C: int, k: int, c: int)
    requires k >= 1 && c >= 1
    ensures WeightFp16(C, 1, 1) == 0
    ensures c % 32 != 0 ==> WeightFp16(C, k, c + 1) == WeightFp16(C, k, c) + 1
    ensures k % 16 != 0 ==> WeightFp16(C, k + 1, c) == WeightFp16(C, k, c) + 32
    ensures WeightFp16(C, k, c + 32) == WeightFp16(C, k, c) + 512
    ensures WeightFp16(C, k + 16, c) == WeightFp16(C, k, c) + 16 * C
  {
    hide WeightFp16, WeightInt8, Blocked;
    BlockedStrides(16, C, k, c);
    NeighboursAreBlocked(C, k, c, 16);
  }

  lemma Int8Strides(C: int, k: int, c: int)
    requires k >= 1 && c >= 1
    ensures WeightInt8(C, 1, 1) == 0
    ensures c % 32 != 0 ==> WeightInt8(C, k, c + 1) == WeightInt8(C, k, c) + 1
    ensures k % 32 != 0 ==> WeightInt8(C, k + 1, c) == WeightInt8(C, k, c) + 32
    ensures WeightInt8(C, k, c + 32) == WeightInt8(C, k, c) + 1024
    ensures WeightInt8(C, k + 32, c) == WeightInt8(C, k, c) + 32 * C
  {
    hide WeightFp16, WeightInt8, Blocked;
    BlockedStrides(32, C, k, c);
    NeighboursAreBlocked(C, k, c, 32);
  }

  lemma NeighboursAreBlocked(C: int, k: int, c: int, G: int)
    requires k >= 1 && c >= 1 && G >= 0
    ensures forall x | x in {Weight(1, 1), Weight(k, c), Weight(k, c + 1), Weight(k + 1, c), Weight(k, c + 32),
                             Weight(k + G, c)} ::
              WeightFp16(C, x.k, x.c) == Blocked(16, C, x) && WeightInt8(C, x.k, x.c) == Blocked(32, C, x)
  {
    hide WeightFp16, WeightInt8, Blocked;
    WeightIsBlocked(C, Weight(1, 1));
    WeightIsBlocked(C, Weight(k, c));
    WeightIsBlocked(C, Weight(k, c + 1));
    WeightIsBlocked(C, Weight(k + 1, c));
    WeightIsBlocked(C, Weight(k, c + 32));
    WeightIsBlocked(C, Weight(k + G, c));
  }

  lemma WeightOrder(p: Precision, C: int, x: Weight, y: Weight)
    requires C >= 32 && C % 32 == 0 && x.k >= 1 && y.k >= 1 && 1 <= x.c <= C && 1 <= y.c <= C
    ensures Slot(p, C, x) < Slot(p, C, y) <==> LexLess(WeightDigits(p.Group(), x), WeightDigits(p.Group(), y))
    ensures Slot(p, C, x) == Slot(p, C, y) <==> x == y
  {
    WeightIsBlocked(C, x);
    WeightIsBlocked(C, y);
    BlockedOrder(p.Group(), C, x, y);
  }

  /** Bijection from N kernels of C channels onto [0, N*C), with its inverse `WeightOwner`. */
  lemma WeightBijection(p: Precision, C: int, N: int, x: Weight, s: int)
    requires C >= 32 && C % 32 == 0 && N >= 0 && N % p.Group() == 0
    ensures InKernels(N, C, x) ==> 0 <= Slot(p, C, x) < N * C && WeightOwner(p.Group(), C, Slot(p, C, x)) == x
    ensures 0 <= s < N * C ==> var o := WeightOwner(p.Group(), C, s); InKernels(N, C, o) && Slot(p, C, o) == s
  {
    var G := p.Group();
    if InKernels(N, C, x) {
      WeightIsBlocked(C, x);
      BlockedInverse(G, C, x, 0);
      BlockedOnto(G, C, N, x);
    }
    if 0 <= s < N * C {
      var o := WeightOwner(G, C, s);
      BlockedInverse(G, C, o, s);
      WeightIsBlocked(C, o);
      BlockedOnto(G, C, N, o);
    }
  }

  ghost predicate SlotsInside(p: Precision, C: int, N: int) {
    forall x :: InKernels(N, C, x) ==> Slot(p, C, x) < N * C
  }

  ghost predicate SlotsDistinct(p: Precision, C: int, N: int) {
    forall x, y :: InKernels(N, C, x) && InKernels(N, C, y) && x != y ==> Slot(p, C, x) != Slot(p, C, y)
  }

  lemma SlotsInsideIff(p: Precision, C: int, N: int)
    requires C >= 32 && C % 32 == 0 && N >= 1
    ensures SlotsInside(p, C, N) <==> N % p.Group() == 0 || C == 32
  {
    forall x | InKernels(N, C, x)
      ensures Slot(p, C, x) == Blocked(p.Group(), C, x)
    {
      WeightIsBlocked(C, x);
    }
    BlockedFitsIff(p.Group(), C, N);
  }

  lemma SlotsDistinctIff(p: Precision, C: int, N: int)
    requires C >= 1 && N >= 1
    ensures SlotsDistinct(p, C, N) <==> C % 32 == 0 || N <= p.Group() || (p.Fp16? && C % 2 == 1 && C <= 15 && N <= 32)
  {
    forall x | InKernels(N, C, x)
      ensures Slot(p, C, x) == Blocked(p.Group(), C, x)
    {
      WeightIsBlocked(C, x);
    }
    assert SlotsDistinct(p, C, N) <==> Injective(p.Group(), C, N) by {
      if !SlotsDistinct(p, C, N) {
        var x, y :| InKernels(N, C, x) && InKernels(N, C, y) && x != y && Slot(p, C, x) == Slot(p, C, y);
        assert Collide(p.Group(), C, N, x, y);
      }
    }
    if p.Fp16? { Fp16InjectiveIff(C, N); } else { Int8InjectiveIff(C, N); }
  }

  /** Unaligned channels never fit more than one kernel: the last weight, or kernel 16 when there are
      two narrow groups, lies at or beyond slot N*C. */
  lemma UnalignedOverrun(p: Precision, C: int, N: int)
    requires C >= 1 && C % 32 != 0 && N >= 2
    requires N <= p.Group() || (p.Fp16? && C <= 15 && N <= 32)
    ensures !SlotsInside(p, C, N)
  {
    hide Blocked, WeightFp16, WeightInt8;
    var x := if N <= p.Group() then Weight(N, C) else Weight(16, 1);
    WeightIsBlocked(C, x);
    if N <= p.Group() {
      LastOfGroup(p.Group(), C, N);
    } else {
      EarlySlot(C, x);
      NonNegative(32 - N, C);
      Distribute(32 - N, N, C);
    }
    Outside(p, C, N, x);
  }

  lemma Outside(p: Precision, C: int, N: int, x: Weight)
    requires InKernels(N, C, x) && Slot(p, C, x) >= N * C
    ensures !SlotsInside(p, C, N)
  {
    hide Slot;
  }

  lemma LastOfGroup(G: int, C: int, N: int)
    requires C >= 1 && C % 32 != 0 && 1 <= N <= G
    ensures Blocked(G, C, Weight(N, C)) == C / 32 * 32 * G + (N - 1) * 32 + C % 32 - 1
    ensures N >= 2 ==> Blocked(G, C, Weight(N, C)) >= N * C
  {
    var q, R := C / 32, C % 32;
    assert C - 1 == q * 32 + (R - 1);
    assert (C - 1) / 32 == q && (C - 1) % 32 == R - 1;
    StepDivMod(0, N - 1, G);
    assert 0 * G * C == 0;
    Distribute(q * 32, R, N);
    NonNegative(q * 32, G - N);
    Distribute(G - N, N, q * 32);
    if N >= 2 { NonNegative(31 - R, N - 1); }
  }

  lemma FirstKernelSlot(p: Precision, C: int, c: int)
    requires 1 <= c <= C
    ensures Slot(p, C, Weight(1, c)) == (c - 1) / 32 * 32 * p.Group() + (c - 1) % 32
  {
    hide WeightFp16, WeightInt8;
    WeightIsBlocked(C, Weight(1, c));
    FirstKernelBlocked(p.Group(), C, c);
  }

  lemma FirstKernelBlocked(G: int, C: int, c: int)
    requires G == 16 || G == 32
    ensures Blocked(G, C, Weight(1, c)) == (c - 1) / 32 * 32 * G + (c - 1) % 32
  {
    assert 0 / G == 0 && 0 % G == 0 && 0 * G * C == 0;
  }

  lemma OneKernel(p: Precision, C: int)
    requires C >= 1
    ensures SlotsInside(p, C, 1) <==> C <= 32
  {
    hide Slot;
    if C <= 32 {
      forall x | InKernels(1, C, x)
        ensures Slot(p, C, x) < 1 * C
      {
        FirstKernelSlot(p, C, x.c);
        assert x == Weight(1, x.c) && (x.c - 1) / 32 == 0;
      }
    } else {
      FirstKernelSlot(p, C, C);
      FarSlot((C - 1) / 32, p.Group());
      Outside(p, C, 1, Weight(1, C));
    }
  }

  lemma FarSlot(q: int, G: int)
    requires q >= 1 && G >= 16
    ensures q * 32 * G >= q * 32 + 1
  {
    NonNegative(q * 32 - 1, G - 1);
    Distribute(G - 1, 1, q * 32);
    assert (q * 32 - 1) * (G - 1) == q * 32 * (G - 1) - (G - 1);
  }

  /** The counterpart of `FeatureDense`, for every C and N: the layout puts N kernels of C channels
      one-to-one into N*C slots exactly when the channels are whole groups and the kernels are too
      (or there is one channel group), or when it is a single kernel of one channel group. */
  lemma WeightDense(p: Precision, C: int, N: int)
    requires C >= 1 && N >= 1
    ensures SlotsDistinct(p, C, N) && SlotsInside(p, C, N)
       <==> (C % 32 == 0 && (N % p.Group() == 0 || C == 32)) || (N == 1 && C <= 32)
  {
    hide SlotsDistinct, SlotsInside, Slot;
    SlotsDistinctIff(p, C, N);
    if C % 32 == 0 {
      SlotsInsideIff(p, C, N);
    } else if N == 1 {
      OneKernel(p, C);
    } else if N <= p.Group() || (p.Fp16? && C <= 15 && N <= 32) {
      UnalignedOverrun(p, C, N);
    }
  }

  // ----- C int arithmetic in the index computation

  /** Every value that C forms while computing the slot of `x`, in order of evaluation. */
  predicate WeightStepsInInt(G: int, C: int, x: Weight)
    requires G >= 1
  {
    var kpg, cpg, cs, ks := (x.k - 1) / G, (x.c - 1) / 32, (x.c - 1) % 32, (x.k - 1) % G;
    var dst := cpg * 32 * G + kpg * G * C;
    && IsInt(x.k - 1) && IsInt(kpg) && IsInt(x.c - 1) && IsInt(cpg)
    && IsInt(cpg * 32) && IsInt(cpg * 32 * G) && IsInt(kpg * G) && IsInt(kpg * G * C) && IsInt(dst)
    && IsInt(cs) && IsInt(dst + cs) && IsInt(ks) && IsInt(ks * 32) && IsInt(dst + cs + ks * 32)
  }

  /** No intermediate is negative or exceeds the sum. */
  lemma WeightTerms(G: int, C: int, kpg: int, cpg: int)
    requires G >= 1 && C >= 1 && kpg >= 0 && cpg >= 0
    ensures 0 <= kpg <= kpg * G <= kpg * G * C && 0 <= cpg <= cpg * 32 <= cpg * 32 * G
  {
    Grows(kpg, G);
    Grows(kpg * G, C);
    Grows(cpg * 32, G);
  }

  lemma WeightSteps(G: int, C: int, x: Weight)
    requires G >= 1 && C >= 1 && x.k >= 1 && x.c >= 1
    ensures Blocked(G, C, x) <= INT_MAX <==> WeightStepsInInt(G, C, x)
  {
    var kpg, cpg := (x.k - 1) / G, (x.c - 1) / 32;
    assert x.k - 1 == kpg * G + (x.k - 1) % G && kpg >= 0 by { StepOrder(-1, 0, kpg, (x.k - 1) % G, G); }
    WeightTerms(G, C, kpg, cpg);
  }

  /** The counterpart of `FeatureIndexIff`, weight by weight and without any alignment: the C
      computation stays in int range exactly when its result does. */
  lemma WeightIndexIff(p: Precision, C: int, x: Weight)
    requires C >= 1 && x.k >= 1 && x.c >= 1
    ensures Slot(p, C, x) <= 0x7FFF_FFFF <==> WeightStepsInInt(p.Group(), C, x)
  {
    hide WeightStepsInInt, Blocked;
    WeightIsBlocked(C, x);
    WeightSteps(p.Group(), C, x);
  }

  /** When N kernels fit N*C slots (see `WeightDense`), that count in int range is enough. */
  lemma WeightIndexInt(p: Precision, C: int, N: int, x: Weight)
    requires InKernels(N, C, x) && SlotsInside(p, C, N) && N * C <= 0x7FFF_FFFF
    ensures WeightStepsInInt(p.Group(), C, x)
  {
    hide Slot, WeightStepsInInt;
    WeightIndexIff(p, C, x);
  }
}
