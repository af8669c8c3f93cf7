/** Bitwise operators on integers, as the C expressions of the command encoders use them.

    The left operand of `And` may be negative: it is read in two's complement of unbounded width,
    which is what masking a sign-extended C integer gives. Everything below is stated bit by bit,
    so that a word built from masked, shifted fields can be taken apart again. */
module Bits {
  import MixedRadix

  /** Bit `i` of `x`, counted from the least significant bit. */
  predicate Bit(x: int, i: nat)
    decreases i, x
  {
    if i == 0 then x % 2 == 1 else Bit(x / 2, i - 1)
  }

  /** A run of `w` ones: 1, 3, 7, 0xF, ... */
  function Mask(w: nat): nat {
    if w == 0 then 0 else 2 * Mask(w - 1) + 1
  }

  function And(x: int, y: nat): nat
    decreases y, x
  {
    if y == 0 then 0
    else 2 * And(x / 2, y / 2) + if x % 2 == 1 && y % 2 == 1 then 1 else 0
  }

  function Or(x: nat, y: nat): nat {
    if x == 0 then y
    else 2 * Or(x / 2, y / 2) + if x % 2 == 1 || y % 2 == 1 then 1 else 0
  }

  function Shl(x: nat, s: nat): nat {
    if s == 0 then x else 2 * Shl(x, s - 1)
  }

  function Shr(x: nat, s: nat): nat {
    if s == 0 then x else Shr(x / 2, s - 1)
  }

  // ----- what each operator does to single bits

  lemma {:induction false} BitZero(i: nat)
    ensures !Bit(0, i)
  {
    if i > 0 { BitZero(i - 1); }
  }

  lemma {:induction false} BitAnd(x: int, y: nat, i: nat)
    ensures Bit(And(x, y), i) <==> Bit(x, i) && Bit(y, i)
    decreases i
  {
    if y == 0 {
      BitZero(i);
    } else if i > 0 {
      BitAnd(x / 2, y / 2, i - 1);
    }
  }

  lemma {:induction false} BitOr(x: nat, y: nat, i: nat)
    ensures Bit(Or(x, y), i) <==> Bit(x, i) || Bit(y, i)
    decreases i
  {
    if x == 0 {
      BitZero(i);
    } else if i > 0 {
      BitOr(x / 2, y / 2, i - 1);
    }
  }

  lemma {:induction false} BitShl(x: nat, s: nat, i: nat)
    ensures Bit(Shl(x, s), i) <==> i >= s && Bit(x, i - s)
    decreases s
  {
    if s > 0 && i > 0 { BitShl(x, s - 1, i - 1); }
  }

  lemma {:induction false} BitShr(x: nat, s: nat, i: nat)
    ensures Bit(Shr(x, s), i) <==> Bit(x, i + s)
    decreases s
  {
    if s > 0 { BitShr(x / 2, s - 1, i); }
  }

  lemma {:induction false} BitMask(w: nat, i: nat)
    ensures Bit(Mask(w), i) <==> i < w
  {
    if w == 0 {
      BitZero(i);
    } else if i > 0 {
      BitMask(w - 1, i - 1);
    }
  }

  /** Two naturals with the same bits are equal. */
  lemma {:induction false} Extensional(x: nat, y: nat)
    requires forall i: nat :: Bit(x, i) == Bit(y, i)
    ensures x == y
    decreases x + y
  {
    assert Bit(x, 0) == Bit(y, 0);
    if x + y > 0 {
      forall i: nat
        ensures Bit(x / 2, i) == Bit(y / 2, i)
      {
        assert Bit(x, i + 1) == Bit(y, i + 1);
      }
      Extensional(x / 2, y / 2);
    }
  }

  // ----- masking as arithmetic

  /** Masking keeps a value exactly when the value fits. */
  lemma {:induction false} MaskKeeps(x: int, w: nat)
    ensures 0 <= And(x, Mask(w)) <= Mask(w)
    ensures And(x, Mask(w)) == x <==> 0 <= x <= Mask(w)
    decreases w
  {
    if w > 0 { MaskKeeps(x / 2, w - 1); }
  }

  /** Masking a small negative number adds one full period. */
  lemma {:induction false} MaskWraps(x: int, w: nat)
    requires 0 <= x + Mask(w) + 1 && x < 0
    ensures And(x, Mask(w)) == x + Mask(w) + 1
    decreases w
  {
    if w > 0 { MaskWraps(x / 2, w - 1); }
  }

  /** Masking is reduction modulo a power of two. */
  lemma {:induction false} MaskIsModulo(x: int, w: nat)
    ensures And(x, Mask(w)) == x % (Mask(w) + 1)
    decreases w
  {
    if w > 0 {
      MaskIsModulo(x / 2, w - 1);
      HalveModulo(x, Mask(w - 1) + 1);
    }
  }

  lemma HalveModulo(x: int, p: nat)
    requires p > 0
    ensures x % (2 * p) == 2 * (x / 2 % p) + x % 2
  {
    var q, r := x / 2 / p, x / 2 % p;
    assert x / 2 == q * p + r;
    assert x == q * (2 * p) + (2 * r + x % 2);
    MixedRadix.StepDivMod(q, 2 * r + x % 2, 2 * p);
  }

  /** The masks that occur as hexadecimal literals in the encoders. */
  lemma MaskValues()
    ensures Mask(1) == 0x1 && Mask(2) == 0x3 && Mask(3) == 0x7 && Mask(4) == 0xF && Mask(5) == 0x1F
    ensures Mask(8) == 0xFF && Mask(10) == 0x3FF && Mask(11) == 0x7FF && Mask(13) == 0x1FFF
    ensures Mask(14) == 0x3FFF && Mask(16) == 0xFFFF && Mask(17) == 0x1FFFF && Mask(18) == 0x3FFFF
    ensures Mask(19) == 0x7FFFF && Mask(22) == 0x3FFFFF && Mask(28) == 0xFFFFFFF && Mask(32) == 0xFFFFFFFF
  {
    assert Mask(6) == 0x3F && Mask(7) == 0x7F && Mask(8) == 0xFF && Mask(9) == 0x1FF;
    assert Mask(10) == 0x3FF && Mask(11) == 0x7FF && Mask(12) == 0xFFF && Mask(13) == 0x1FFF;
    assert Mask(14) == 0x3FFF && Mask(15) == 0x7FFF && Mask(16) == 0xFFFF && Mask(17) == 0x1FFFF;
    assert Mask(18) == 0x3FFFF && Mask(19) == 0x7FFFF && Mask(20) == 0xFFFFF && Mask(21) == 0x1FFFFF;
    assert Mask(22) == 0x3FFFFF && Mask(23) == 0x7FFFFF && Mask(24) == 0xFFFFFF && Mask(25) == 0x1FFFFFF;
    assert Mask(26) == 0x3FFFFFF && Mask(27) == 0x7FFFFFF && Mask(28) == 0xFFFFFFF;
    assert Mask(29) == 0x1FFFFFFF && Mask(30) == 0x3FFFFFFF && Mask(31) == 0x7FFFFFFF;
  }

  lemma {:induction false} OrZero(x: nat)
    ensures Or(x, 0) == x
  {
    if x > 0 { OrZero(x / 2); }
  }

  // ----- words made of fields

  /** A value that a C expression places as `(value & Mask(width)) << shift`. */
  datatype Field = Field(value: int, width: nat, shift: nat)

  function Put(f: Field): nat {
    Shl(And(f.value, Mask(f.width)), f.shift)
  }

  /** `Put(fs[0]) | Put(fs[1]) | ...`, associated to the left as in C. */
  function Pack(fs: seq<Field>): nat {
    if |fs| == 0 then 0
    else if |fs| == 1 then Put(fs[0])
    else Or(Pack(fs[..|fs| - 1]), Put(fs[|fs| - 1]))
  }

  /** What a `|` chain of masked, shifted fields is, for the chain lengths that occur. */
  lemma PackUnfolds()
    ensures Pack([]) == 0
    ensures forall x: nat :: Shl(x, 0) == x
    ensures forall a :: Pack([a]) == Put(a)
    ensures forall a, b :: Pack([a, b]) == Or(Put(a), Put(b))
    ensures forall a, b, c :: Pack([a, b, c]) == Or(Or(Put(a), Put(b)), Put(c))
    ensures forall a, b, c, d :: Pack([a, b, c, d]) == Or(Or(Or(Put(a), Put(b)), Put(c)), Put(d))
    ensures forall a, b, c, d, e :: Pack([a, b, c, d, e]) == Or(Or(Or(Or(Put(a), Put(b)), Put(c)), Put(d)), Put(e))
  {
    forall a, b ensures Pack([a, b]) == Or(Put(a), Put(b)) {
      assert [a, b][..1] == [a];
    }
    forall a, b, c ensures Pack([a, b, c]) == Or(Or(Put(a), Put(b)), Put(c)) {
      assert [a, b, c][..2] == [a, b];
    }
    forall a, b, c, d ensures Pack([a, b, c, d]) == Or(Or(Or(Put(a), Put(b)), Put(c)), Put(d)) {
      assert [a, b, c, d][..3] == [a, b, c];
    }
    forall a, b, c, d, e ensures Pack([a, b, c, d, e]) == Or(Or(Or(Or(Put(a), Put(b)), Put(c)), Put(d)), Put(e)) {
      assert [a, b, c, d, e][..4] == [a, b, c, d];
    }
  }

  /** Reads `width` bits at position `shift` back out of a word. */
  function Extract(word: nat, width: nat, shift: nat): nat {
    And(Shr(word, shift), Mask(width))
  }

  /** No bit belongs to two of the fields. */
  predicate Apart(s1: nat, w1: nat, s2: nat, w2: nat) {
    s1 + w1 <= s2 || s2 + w2 <= s1
  }

  predicate Disjoint(fs: seq<Field>) {
    forall j, l :: 0 <= j < l < |fs| ==> Apart(fs[j].shift, fs[j].width, fs[l].shift, fs[l].width)
  }

  predicate Supplies(f: Field, i: nat) {
    f.shift <= i < f.shift + f.width && Bit(f.value, i - f.shift)
  }

  lemma PutBit(f: Field, i: nat)
    ensures Bit(Put(f), i) <==> Supplies(f, i)
  {
    BitShl(And(f.value, Mask(f.width)), f.shift, i);
    if i >= f.shift {
      BitAnd(f.value, Mask(f.width), i - f.shift);
      BitMask(f.width, i - f.shift);
    }
  }

  /** A bit of a packed word is set exactly when some field supplies it. */
  lemma {:induction false} PackBit(fs: seq<Field>, i: nat)
    ensures Bit(Pack(fs), i) <==> exists j :: 0 <= j < |fs| && Supplies(fs[j], i)
  {
    if |fs| == 0 {
      BitZero(i);
    } else if |fs| == 1 {
      PutBit(fs[0], i);
    } else {
      var init, last := fs[..|fs| - 1], fs[|fs| - 1];
      PackBit(init, i);
      PutBit(last, i);
      BitOr(Pack(init), Put(last), i);
      assert forall j :: 0 <= j < |init| ==> init[j] == fs[j];
    }
  }

  /** Round trip of one word: reading `width` bits at the position of a field, where no other field
      reaches, gives the field's masked value. */
  lemma ExtractPackWide(fs: seq<Field>, j: nat, width: nat)
    requires j < |fs|
    requires forall l :: 0 <= l < |fs| && l != j ==> Apart(fs[l].shift, fs[l].width, fs[j].shift, width)
    ensures Extract(Pack(fs), width, fs[j].shift) == And(And(fs[j].value, Mask(fs[j].width)), Mask(width))
  {
    var f := fs[j];
    var kept := And(f.value, Mask(f.width));
    forall i: nat
      ensures Bit(Extract(Pack(fs), width, f.shift), i) == Bit(And(kept, Mask(width)), i)
    {
      BitAnd(Shr(Pack(fs), f.shift), Mask(width), i);
      BitAnd(kept, Mask(width), i);
      BitAnd(f.value, Mask(f.width), i);
      BitMask(f.width, i);
      BitMask(width, i);
      BitShr(Pack(fs), f.shift, i);
      if i < width {
        PackBit(fs, i + f.shift);
        assert forall l :: 0 <= l < |fs| && l != j ==> !Supplies(fs[l], i + f.shift);
        assert Supplies(f, i + f.shift) == (i < f.width && Bit(f.value, i));
      }
    }
    Extensional(Extract(Pack(fs), width, f.shift), And(kept, Mask(width)));
  }

  /** Fields that do not overlap all come back, masked and otherwise unchanged. */
  lemma ExtractPack(fs: seq<Field>, j: nat)
    requires Disjoint(fs) && j < |fs|
    ensures Extract(Pack(fs), fs[j].width, fs[j].shift) == And(fs[j].value, Mask(fs[j].width))
  {
    ExtractPackWide(fs, j, fs[j].width);
    MaskKeeps(fs[j].value, fs[j].width);
    MaskKeeps(And(fs[j].value, Mask(fs[j].width)), fs[j].width);
  }

  /** A packed word whose fields end at or below bit `width` is a `width`-bit number. */
  lemma PackFits(fs: seq<Field>, width: nat)
    requires forall j :: 0 <= j < |fs| ==> fs[j].shift + fs[j].width <= width
    ensures Pack(fs) <= Mask(width)
    ensures And(Pack(fs), Mask(width)) == Pack(fs)
  {
    forall i: nat
      ensures Bit(And(Pack(fs), Mask(width)), i) == Bit(Pack(fs), i)
    {
      BitAnd(Pack(fs), Mask(width), i);
      BitMask(width, i);
      PackBit(fs, i);
    }
    Extensional(And(Pack(fs), Mask(width)), Pack(fs));
    MaskKeeps(Pack(fs), width);
  }

  // ----- words as numbers

  lemma {:induction false} ShlIsProduct(x: nat, s: nat)
    ensures Shl(x, s) == x * (Mask(s) + 1)
  {
    if s > 0 { ShlIsProduct(x, s - 1); }
  }

  lemma {:induction false} ShrIsQuotient(x: nat, s: nat)
    ensures Shr(x, s) == x / (Mask(s) + 1)
  {
    if s > 0 {
      ShrIsQuotient(x / 2, s - 1);
      HalveQuotient(x, Mask(s - 1) + 1);
    }
  }

  lemma HalveQuotient(x: int, p: nat)
    requires p > 0
    ensures x / (2 * p) == x / 2 / p
  {
    var q, r := x / 2 / p, x / 2 % p;
    assert x == q * (2 * p) + (2 * r + x % 2);
    MixedRadix.StepDivMod(q, 2 * r + x % 2, 2 * p);
  }

  /** Or-ing numbers without a common bit adds them. */
  lemma {:induction false} OrIsSum(x: nat, y: nat)
    requires forall i: nat :: !(Bit(x, i) && Bit(y, i))
    ensures Or(x, y) == x + y
    decreases x
  {
    if x > 0 {
      forall i: nat
        ensures !(Bit(x / 2, i) && Bit(y / 2, i))
      {
        assert !(Bit(x, i + 1) && Bit(y, i + 1));
      }
      OrIsSum(x / 2, y / 2);
      assert !(Bit(x, 0) && Bit(y, 0));
    }
  }

  /** What a field contributes to a word: its value modulo its width, times the weight of its position. */
  function Amount(f: Field): nat {
    f.value % (Mask(f.width) + 1) * (Mask(f.shift) + 1)
  }

  lemma AmountIs(f: Field, modulus: nat, weight: nat)
    requires modulus == Mask(f.width) + 1 && weight == Mask(f.shift) + 1
    ensures Amount(f) == f.value % modulus * weight
  {
  }

  function Total(fs: seq<Field>): nat {
    if |fs| == 0 then 0 else Total(fs[..|fs| - 1]) + Amount(fs[|fs| - 1])
  }

  lemma PutIsAmount(f: Field)
    ensures Put(f) == Amount(f)
  {
    MaskIsModulo(f.value, f.width);
    ShlIsProduct(And(f.value, Mask(f.width)), f.shift);
  }

  /** A word of fields that do not overlap is the sum of what they contribute. */
  lemma {:induction false} PackIsTotal(fs: seq<Field>)
    requires Disjoint(fs)
    ensures Pack(fs) == Total(fs)
  {
    if |fs| > 0 {
      var init, last := fs[..|fs| - 1], fs[|fs| - 1];
      PutIsAmount(last);
      PackIsTotal(init);
      if |fs| > 1 {
        forall i: nat
          ensures !(Bit(Pack(init), i) && Bit(Put(last), i))
        {
          PackBit(init, i);
          PutBit(last, i);
          assert forall j :: 0 <= j < |init| ==> init[j] == fs[j];
        }
        OrIsSum(Pack(init), Put(last));
      } else {
        assert init == [];
      }
    }
  }

  lemma TotalUnfolds()
    ensures Total([]) == 0
    ensures forall a :: Total([a]) == Amount(a)
    ensures forall a, b :: Total([a, b]) == Amount(a) + Amount(b)
    ensures forall a, b, c :: Total([a, b, c]) == Amount(a) + Amount(b) + Amount(c)
    ensures forall a, b, c, d :: Total([a, b, c, d]) == Amount(a) + Amount(b) + Amount(c) + Amount(d)
    ensures forall a, b, c, d, e ::
              Total([a, b, c, d, e]) == Amount(a) + Amount(b) + Amount(c) + Amount(d) + Amount(e)
  {
    hide Amount;
    forall a ensures Total([a]) == Amount(a) {
      assert [a][..0] == [];
    }
    forall a, b ensures Total([a, b]) == Amount(a) + Amount(b) {
      assert [a, b][..1] == [a];
    }
    forall a, b, c ensures Total([a, b, c]) == Amount(a) + Amount(b) + Amount(c) {
      assert [a, b, c][..2] == [a, b];
    }
    forall a, b, c, d ensures Total([a, b, c, d]) == Amount(a) + Amount(b) + Amount(c) + Amount(d) {
      assert [a, b, c, d][..3] == [a, b, c];
    }
    forall a, b, c, d, e
      ensures Total([a, b, c, d, e]) == Amount(a) + Amount(b) + Amount(c) + Amount(d) + Amount(e)
    {
      assert [a, b, c, d, e][..4] == [a, b, c, d];
    }
  }
}
