/** The blocked tensor layouts: where a logical element sits in a tiled NPU buffer.

    All coordinates count from 1, as in the C functions. */
module Layouts {
  import opened MixedRadix

  // ----- C integer division, which truncates toward zero

  function CDiv(a: int, b: int): int
    requires b != 0
  {
    if a >= 0 then a / b else -((-a) / b)
  }

  function CMod(a: int, b: int): int
    requires b != 0
  {
    a - b * CDiv(a, b)
  }

  lemma TruncationAgrees(a: int, b: int)
    requires a >= 0 && b > 0
    ensures CDiv(a, b) == a / b && CMod(a, b) == a % b
  {
  }

  // ----- the three layout functions

  function FeatureData(C: int, H: int, W: int, C2: int, c: int, h: int, w: int): int
    requires C2 != 0
  {
    var plane := CDiv(c - 1, C2);
    var src := plane * H * W * C2;
    var offset := CMod(c - 1, C2);
    src + C2 * ((h - 1) * W + (w - 1)) + offset
  }

  function WeightFp16(C: int, k: int, c: int): int {
    var kpg := CDiv(k - 1, 16);
    var cpg := CDiv(c - 1, 32);
    var dst := (cpg * 32) * 16 + kpg * 16 * C;
    dst + CMod(c - 1, 32) + CMod(k - 1, 16) * 32
  }

  function WeightInt8(C: int, k: int, c: int): int {
    var kpg := CDiv(k - 1, 32);
    var cpg := CDiv(c - 1, 32);
    var dst := (cpg * 32) * 32 + kpg * 32 * C;
    dst + CMod(c - 1, 32) + CMod(k - 1, 32) * 32
  }

  // ----- feature_data

  predicate FeatureShape(C: int, H: int, W: int, C2: int) {
    C >= 1 && H >= 1 && W >= 1 && C2 >= 1
  }

  /** A tensor coordinate: channel, row, column. */
  datatype Coord = Coord(c: int, h: int, w: int)

  predicate InTensor(C: int, H: int, W: int, x: Coord) {
    1 <= x.c <= C && 1 <= x.h <= H && 1 <= x.w <= W
  }

  function SlotOf(C: int, H: int, W: int, C2: int, x: Coord): int
    requires C2 != 0
  {
    FeatureData(C, H, W, C2, x.c, x.h, x.w)
  }

  /** Number of channel planes, the last one possibly partial. */
  function Planes(C: int, C2: int): int
    requires C2 >= 1
  {
    (C + C2 - 1) / C2
  }

  function FeatureDigits(C2: int, x: Coord): Digits
    requires C2 >= 1
  {
    Digits((x.c - 1) / C2, x.h - 1, x.w - 1, (x.c - 1) % C2)
  }

  /** The coordinate that owns a slot, in the tensor padded to whole channel planes. */
  function FeatureOwner(H: int, W: int, C2: int, s: int): Coord
    requires H >= 1 && W >= 1 && C2 >= 1
  {
    var x := Unrank(s, Radix(H, W, C2));
    Coord(x.a * C2 + x.d + 1, x.b + 1, x.c + 1)
  }

  lemma FeatureIsRank(C: int, H: int, W: int, C2: int, x: Coord)
    requires FeatureShape(C, H, W, C2) && x.c >= 1 && 1 <= x.h <= H && 1 <= x.w <= W
    ensures Proper(FeatureDigits(C2, x), Radix(H, W, C2))
    ensures SlotOf(C, H, W, C2, x) == Rank(FeatureDigits(C2, x), Radix(H, W, C2))
  {
    TruncationAgrees(x.c - 1, C2);
    var p, h, w, o := (x.c - 1) / C2, x.h - 1, x.w - 1, (x.c - 1) % C2;
    calc {
      ((p * H + h) * W + w) * C2 + o;
      (p * H * W + (h * W + w)) * C2 + o;
      p * H * W * C2 + C2 * (h * W + w) + o;
    }
  }

  /** feature_data orders coordinates by (plane, row, column, offset in plane); in particular no
      two coordinates share a slot. This needs no divisibility of C by C2. */
  lemma FeatureOrder(C: int, H: int, W: int, C2: int, x: Coord, y: Coord)
    requires FeatureShape(C, H, W, C2) && InTensor(C, H, W, x) && InTensor(C, H, W, y)
    ensures SlotOf(C, H, W, C2, x) < SlotOf(C, H, W, C2, y) <==> LexLess(FeatureDigits(C2, x), FeatureDigits(C2, y))
    ensures SlotOf(C, H, W, C2, x) == SlotOf(C, H, W, C2, y) <==> x == y
  {
    FeatureIsRank(C, H, W, C2, x);
    FeatureIsRank(C, H, W, C2, y);
    RankOrder(FeatureDigits(C2, x), FeatureDigits(C2, y), Radix(H, W, C2));
    if FeatureDigits(C2, x) == FeatureDigits(C2, y) {
      assert x.c - 1 == (x.c - 1) / C2 * C2 + (x.c - 1) % C2;
      assert y.c - 1 == (y.c - 1) / C2 * C2 + (y.c - 1) % C2;
    }
  }

  /** The strides: 1 from one offset of a plane to the next, C2 from column to column, W*C2 from row to row
      and H*W*C2 from plane to plane, starting at 0. */
  lemma FeatureStrides(C: int, H: int, W: int, C2: int, c: int, h: int, w: int)
    requires C2 >= 1 && c >= 1
    ensures FeatureData(C, H, W, C2, 1, 1, 1) == 0
    ensures c % C2 != 0 ==> FeatureData(C, H, W, C2, c + 1, h, w) == FeatureData(C, H, W, C2, c, h, w) + 1
    ensures FeatureData(C, H, W, C2, c, h, w + 1) == FeatureData(C, H, W, C2, c, h, w) + C2
    ensures FeatureData(C, H, W, C2, c, h + 1, w) == FeatureData(C, H, W, C2, c, h, w) + W * C2
    ensures FeatureData(C, H, W, C2, c + C2, h, w) == FeatureData(C, H, W, C2, c, h, w) + H * W * C2
  {
    hide FeatureData;
    var q, r := (c - 1) / C2, (c - 1) % C2;
    ChannelSteps(c, C2, q, r);
    StrideTerms(H, W, C2, q, h, w);
    FeatureAt(C, H, W, C2, 1, 1, 1, 0, 0);
    FeatureAt(C, H, W, C2, c, h, w, q, r);
    FeatureAt(C, H, W, C2, c, h, w + 1, q, r);
    FeatureAt(C, H, W, C2, c, h + 1, w, q, r);
    FeatureAt(C, H, W, C2, c + C2, h, w, q + 1, r);
    if c % C2 != 0 { FeatureAt(C, H, W, C2, c + 1, h, w, q, r + 1); }
  }

  lemma FeatureAt(C: int, H: int, W: int, C2: int, c: int, h: int, w: int, q: int, r: int)
    requires 0 <= r < C2 && q >= 0 && c - 1 == q * C2 + r
    ensures FeatureData(C, H, W, C2, c, h, w) == q * H * W * C2 + C2 * ((h - 1) * W + (w - 1)) + r
  {
    NonNegative(q, C2);
    StepDivMod(q, r, C2);
    TruncationAgrees(c - 1, C2);
  }

  lemma ChannelSteps(c: int, C2: int, q: int, r: int)
    requires C2 >= 1 && c >= 1 && q == (c - 1) / C2 && r == (c - 1) % C2
    ensures q >= 0 && 0 <= r < C2 && c - 1 == q * C2 + r
    ensures c + C2 - 1 == (q + 1) * C2 + r && (c % C2 != 0 ==> r + 1 < C2)
  {
    Distribute(q, 1, C2);
    StepOrder(-1, 0, q, r, C2);
    if r + 1 == C2 { StepDivMod(q + 1, 0, C2); }
  }

  lemma StrideTerms(H: int, W: int, C2: int, q: int, h: int, w: int)
    ensures (q + 1) * H * W * C2 == q * H * W * C2 + H * W * C2
    ensures C2 * (h * W + (w - 1)) == C2 * ((h - 1) * W + (w - 1)) + W * C2
    ensures C2 * ((h - 1) * W + w) == C2 * ((h - 1) * W + (w - 1)) + C2
  {
    Distribute(q, 1, H * W * C2);
    Distribute(h - 1, 1, W);
  }

  lemma FeatureRange(C: int, H: int, W: int, C2: int, x: Coord)
    requires FeatureShape(C, H, W, C2) && InTensor(C, H, W, x)
    ensures 0 <= SlotOf(C, H, W, C2, x) < Planes(C, C2) * H * W * C2
    ensures FeatureOwner(H, W, C2, SlotOf(C, H, W, C2, x)) == x
  {
    var d := FeatureDigits(C2, x);
    FeatureIsRank(C, H, W, C2, x);
    UnrankRank(d, Radix(H, W, C2));
    assert x.c - 1 == d.a * C2 + d.d;
    assert C + C2 - 1 == Planes(C, C2) * C2 + (C + C2 - 1) % C2;
    StepOrder(d.a, d.d, Planes(C, C2), 0, C2);
    RankBound(d, Radix(H, W, C2), Planes(C, C2));
  }

  ghost predicate Used(C: int, H: int, W: int, C2: int, s: int)
    requires C2 != 0
  {
    exists x :: InTensor(C, H, W, x) && SlotOf(C, H, W, C2, x) == s
  }

  /** Which slots are used: slot `s` holds an element exactly when its owner is a real channel. Where
      the others are inside the padded tensor is said by `FeatureTail`. */
  lemma FeatureHit(C: int, H: int, W: int, C2: int, s: int)
    requires FeatureShape(C, H, W, C2) && s >= 0
    ensures FeatureOwner(H, W, C2, s).c >= 1
    ensures Used(C, H, W, C2, s) <==> FeatureOwner(H, W, C2, s).c <= C
    ensures FeatureOwner(H, W, C2, s).c <= C ==> InTensor(C, H, W, FeatureOwner(H, W, C2, s))
                                                 && SlotOf(C, H, W, C2, FeatureOwner(H, W, C2, s)) == s
  {
    var r := Radix(H, W, C2);
    var d, o := Unrank(s, r), FeatureOwner(H, W, C2, s);
    RankUnrank(s, r);
    StepOrder(-1, 0, d.a, d.d, C2);
    StepDivMod(d.a, d.d, C2);
    assert d.a * C2 >= 0;
    FeatureIsRank(C, H, W, C2, o);
    if x :| InTensor(C, H, W, x) && SlotOf(C, H, W, C2, x) == s {
      FeatureRange(C, H, W, C2, x);
    }
  }

  /** Inside the padded tensor the unused slots are exactly the tail offsets of the last plane. */
  lemma FeatureTail(C: int, H: int, W: int, C2: int, s: int)
    requires FeatureShape(C, H, W, C2) && 0 <= s < Planes(C, C2) * H * W * C2
    ensures var last := Planes(C, C2) - 1;
            !Used(C, H, W, C2, s) <==> Unrank(s, Radix(H, W, C2)).a == last && s % C2 >= C - last * C2
  {
    hide Used, FeatureData;
    var d, n := Unrank(s, Radix(H, W, C2)), Planes(C, C2);
    FeatureHit(C, H, W, C2, s);
    RankUnrank(s, Radix(H, W, C2));
    RankBound(d, Radix(H, W, C2), n);
    PlanesBound(C, C2);
    StepOrder(d.a, d.d, n - 1, 0, C2);
  }

  /** The number of planes is the least whose channels cover C. */
  lemma PlanesBound(C: int, C2: int)
    requires C >= 1 && C2 >= 1
    ensures (Planes(C, C2) - 1) * C2 < C <= Planes(C, C2) * C2
  {
    assert C + C2 - 1 == Planes(C, C2) * C2 + (C + C2 - 1) % C2;
    Distribute(Planes(C, C2) - 1, 1, C2);
  }

  ghost predicate FeatureFits(C: int, H: int, W: int, C2: int)
    requires C2 != 0
  {
    forall x :: InTensor(C, H, W, x) ==> SlotOf(C, H, W, C2, x) < C * H * W
  }

  ghost predicate FeatureOnto(C: int, H: int, W: int, C2: int)
    requires C2 != 0
  {
    forall s :: 0 <= s < C * H * W ==> Used(C, H, W, C2, s)
  }

  lemma OnePixel(H: int, W: int)
    requires H >= 1 && W >= 1 && H * W == 1
    ensures H == 1 && W == 1
  {
    assert H * W >= H && H * W >= W;
  }

  lemma AlignedPlanes(C: int, H: int, W: int, C2: int)
    requires FeatureShape(C, H, W, C2) && C % C2 == 0
    ensures Planes(C, C2) * C2 == C && Planes(C, C2) * H * W * C2 == C * H * W
  {
    var n := C / C2;
    assert C == n * C2;
    StepDivMod(n, C2 - 1, C2);
    calc { n * H * W * C2; n * C2 * (H * W); C * (H * W); C * H * W; }
  }

  lemma FeatureFitsWhenAligned(C: int, H: int, W: int, C2: int)
    requires FeatureShape(C, H, W, C2) && (C % C2 == 0 || H * W == 1)
    ensures FeatureFits(C, H, W, C2)
  {
    hide FeatureData, Planes;
    forall x | InTensor(C, H, W, x)
      ensures SlotOf(C, H, W, C2, x) < C * H * W
    {
      FeatureRange(C, H, W, C2, x);
      if C % C2 == 0 {
        AlignedPlanes(C, H, W, C2);
      } else {
        OnePixel(H, W);
        FeatureIsRank(C, H, W, C2, x);
        assert x.c - 1 == (x.c - 1) / C2 * C2 + (x.c - 1) % C2;
      }
    }
  }

  lemma FeatureOntoWhenAligned(C: int, H: int, W: int, C2: int)
    requires FeatureShape(C, H, W, C2) && (C % C2 == 0 || H * W == 1)
    ensures FeatureOnto(C, H, W, C2)
  {
    hide FeatureData, Planes, Used;
    forall s | 0 <= s < C * H * W
      ensures Used(C, H, W, C2, s)
    {
      FeatureHit(C, H, W, C2, s);
      var r := Radix(H, W, C2);
      var d := Unrank(s, r);
      RankUnrank(s, r);
      if C % C2 == 0 {
        AlignedPlanes(C, H, W, C2);
        RankBound(d, r, Planes(C, C2));
        StepOrder(d.a, d.d, Planes(C, C2), 0, C2);
      } else {
        OnePixel(H, W);
      }
    }
  }

  /** C*H*W written as the full planes plus the partial one. */
  lemma PartialPlane(C: int, H: int, W: int, C2: int)
    requires FeatureShape(C, H, W, C2)
    ensures C * H * W == C / C2 * H * W * C2 + C % C2 * (H * W)
  {
    var p, t := C / C2, C % C2;
    calc {
      C * H * W;
      C * (H * W);
      (p * C2 + t) * (H * W);
      p * C2 * (H * W) + t * (H * W);
      p * H * W * C2 + t * (H * W);
    }
  }

  /** With a partial last plane and more than one pixel, the last element falls outside the buffer. */
  lemma FeatureOverrun(C: int, H: int, W: int, C2: int)
    requires FeatureShape(C, H, W, C2) && C % C2 != 0 && H * W > 1
    ensures !FeatureFits(C, H, W, C2)
  {
    hide FeatureData;
    var p, t, last := C / C2, C % C2, Coord(C, H, W);
    PartialPlane(C, H, W, C2);
    LastSlot(C, H, W, C2);
    LastElement(H * W, t, C2);
    assert InTensor(C, H, W, last);
  }

  lemma LastDigits(C: int, C2: int)
    requires C >= 1 && C2 >= 1 && C % C2 != 0
    ensures (C - 1) / C2 == C / C2 && (C - 1) % C2 == C % C2 - 1
  {
    var p, t := C / C2, C % C2;
    assert C == p * C2 + t;
    PreviousDigits(p, t, C2);
  }

  lemma PreviousDigits(p: int, t: int, b: int)
    requires 0 < t < b
    ensures (p * b + t - 1) / b == p && (p * b + t - 1) % b == t - 1
  {
    StepDivMod(p, t - 1, b);
  }

  lemma LastSlot(C: int, H: int, W: int, C2: int)
    requires FeatureShape(C, H, W, C2) && C % C2 != 0
    ensures SlotOf(C, H, W, C2, Coord(C, H, W)) == C / C2 * H * W * C2 + (H * W - 1) * C2 + C % C2 - 1
  {
    hide SlotOf;
    FeatureIsRank(C, H, W, C2, Coord(C, H, W));
    LastDigits(C, C2);
    LastRank(C / C2, H, W, C2);
  }

  lemma LastRank(p: int, H: int, W: int, C2: int)
    ensures ((p * H + (H - 1)) * W + (W - 1)) * C2 == p * H * W * C2 + (H * W - 1) * C2
  {
    assert (p * H + (H - 1)) * W + (W - 1) == p * H * W + (H * W - 1);
  }

  lemma LastElement(n: int, t: int, b: int)
    requires n > 1 && 0 <= t < b
    ensures (n - 1) * b + t - 1 >= t * n
  {
    var e := b - t - 1;
    calc { (n - 1) * b; (n - 1) * (t + 1 + e); (n - 1) * (t + 1) + (n - 1) * e; }
    assert (n - 1) * e >= 0;
  }

  /** ... and slot `C/C2*H*W*C2 + C%C2` inside the buffer stays empty. */
  lemma FeatureHole(C: int, H: int, W: int, C2: int)
    requires FeatureShape(C, H, W, C2) && C % C2 != 0 && H * W > 1
    ensures !FeatureOnto(C, H, W, C2)
  {
    var p, t := C / C2, C % C2;
    var hole, r := Digits(p, 0, 0, t), Radix(H, W, C2);
    var s := Rank(hole, r);
    PartialPlane(C, H, W, C2);
    assert s == p * H * W * C2 + t;
    assert t * (H * W) >= t * 2;
    RankBound(hole, r, p + 1);
    UnrankRank(hole, r);
    FeatureHit(C, H, W, C2, s);
    assert 0 <= s < C * H * W && !Used(C, H, W, C2, s);
  }

  /** feature_data is a bijection onto [0, C*H*W) exactly when C2 divides C or there is one pixel. */
  lemma FeatureDense(C: int, H: int, W: int, C2: int)
    requires FeatureShape(C, H, W, C2)
    ensures FeatureFits(C, H, W, C2) <==> C % C2 == 0 || H * W == 1
    ensures FeatureOnto(C, H, W, C2) <==> C % C2 == 0 || H * W == 1
  {
    assert H * W >= 1;
    if C % C2 == 0 || H * W == 1 {
      FeatureFitsWhenAligned(C, H, W, C2);
      FeatureOntoWhenAligned(C, H, W, C2);
    } else {
      FeatureOverrun(C, H, W, C2);
      FeatureHole(C, H, W, C2);
    }
  }

  // ----- C int arithmetic in the index computation

  const INT_MAX := 0x7FFF_FFFF

  predicate IsInt(x: int) {
    -INT_MAX - 1 <= x <= INT_MAX
  }

  /** Every value that C forms while computing the slot of `x`, in order of evaluation. */
  predicate IndexInInt(H: int, W: int, C2: int, x: Coord)
    requires C2 >= 1
  {
    var plane, row := (x.c - 1) / C2, (x.h - 1) * W + (x.w - 1);
    && IsInt(x.c - 1) && IsInt(plane) && IsInt(plane * H) && IsInt(plane * H * W) && IsInt(plane * H * W * C2)
    && IsInt(x.h - 1) && IsInt((x.h - 1) * W) && IsInt(x.w - 1) && IsInt(row) && IsInt(C2 * row)
    && IsInt(plane * H * W * C2 + C2 * row) && IsInt(plane * H * W * C2 + C2 * row + (x.c - 1) % C2)
  }

  lemma Grows(x: int, y: int)
    requires x >= 0 && y >= 1
    ensures 0 <= x <= x * y == y * x
  {
    NonNegative(x, y - 1);
    Distribute(y - 1, 1, x);
  }

  /** The intermediate values are non-negative and none exceeds the slot. */
  lemma IndexSteps(C: int, H: int, W: int, C2: int, x: Coord)
    requires FeatureShape(C, H, W, C2) && InTensor(C, H, W, x)
    ensures SlotOf(C, H, W, C2, x) <= INT_MAX <==> IndexInInt(H, W, C2, x)
  {
    var plane, row, off := (x.c - 1) / C2, (x.h - 1) * W + (x.w - 1), (x.c - 1) % C2;
    TruncationAgrees(x.c - 1, C2);
    assert SlotOf(C, H, W, C2, x) == plane * H * W * C2 + C2 * row + off;
    assert x.c - 1 == plane * C2 + off;
    StepOrder(-1, 0, plane, off, C2);
    Grows(plane, H);
    Grows(plane * H, W);
    Grows(plane * H * W, C2);
    Grows(plane, C2);
    Grows(x.h - 1, W);
    Grows(row, C2);
    ChannelBelowSlot(plane, H, W, C2);
  }

  lemma ChannelBelowSlot(plane: int, H: int, W: int, C2: int)
    requires plane >= 0 && H >= 1 && W >= 1 && C2 >= 1
    ensures plane * C2 <= plane * H * W * C2
  {
    Grows(plane, H);
    Grows(plane * H, W);
    NonNegative(plane * H * W - plane, C2);
    Distribute(plane * H * W - plane, plane, C2);
  }

  /** The last element has the largest slot. */
  lemma LastSlotLargest(C: int, H: int, W: int, C2: int, x: Coord)
    requires FeatureShape(C, H, W, C2) && InTensor(C, H, W, x)
    ensures SlotOf(C, H, W, C2, x) <= SlotOf(C, H, W, C2, Coord(C, H, W))
  {
    hide FeatureData;
    FeatureOrder(C, H, W, C2, Coord(C, H, W), x);
    assert x.c - 1 == (x.c - 1) / C2 * C2 + (x.c - 1) % C2;
    assert C - 1 == (C - 1) / C2 * C2 + (C - 1) % C2;
    StepOrder((C - 1) / C2, (C - 1) % C2, (x.c - 1) / C2, (x.c - 1) % C2, C2);
  }

  /** The whole tensor is indexed without leaving the C int range exactly when its last slot is in it. */
  lemma FeatureIndexIff(C: int, H: int, W: int, C2: int)
    requires FeatureShape(C, H, W, C2)
    ensures (forall x :: InTensor(C, H, W, x) ==> IndexInInt(H, W, C2, x))
       <==> SlotOf(C, H, W, C2, Coord(C, H, W)) <= 0x7FFF_FFFF
  {
    hide FeatureData, IndexInInt;
    var last := Coord(C, H, W);
    assert InTensor(C, H, W, last);
    IndexSteps(C, H, W, C2, last);
    forall x | InTensor(C, H, W, x)
      ensures SlotOf(C, H, W, C2, last) <= INT_MAX ==> IndexInInt(H, W, C2, x)
    {
      IndexSteps(C, H, W, C2, x);
      LastSlotLargest(C, H, W, C2, x);
    }
  }

  /** In a tensor without padding, the element count in int range is enough. */
  lemma FeatureIndexInt(C: int, H: int, W: int, C2: int, x: Coord)
    requires FeatureShape(C, H, W, C2) && InTensor(C, H, W, x)
    requires (C % C2 == 0 || H * W == 1) && C * H * W <= 0x7FFF_FFFF
    ensures IndexInInt(H, W, C2, x)
  {
    hide FeatureData, IndexInInt;
    FeatureDense(C, H, W, C2);
    IndexSteps(C, H, W, C2, x);
  }
}
