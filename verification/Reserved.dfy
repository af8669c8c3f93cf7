/** The encoder against the Mesa register description: blocks agree, and reserved bits stay clear. */
module Reserved {
  import opened Bits
  import opened Descriptors
  import opened Commands
  import opened RegisterFile
  import opened Task
  import opened MesaRegisters

  // ----- the register description itself

  /** In every register that the description knows, each bit is either reserved or part of a described
      field; the known registers are those with a target, and the target goes with the offset range. */
  lemma BitsPartition(reg: nat, b: nat)
    requires reg < 0x5000 && b < 32
    ensures !(ReservedBit(reg, b) && DescribedBit(reg, b))
    ensures ReservedBit(reg, b) || DescribedBit(reg, b) <==> TargetOf(reg) != 0
    ensures TargetOf(reg) != 0 ==>
              TargetOf(reg) == if reg < 0x1000 then 0x100 else if reg < 0x3000 then 0x200
                               else if reg < 0x4000 then 0x800 else 0x1000
  {
    hide ReservedBit, DescribedBit, TargetOf;
    if reg < 0x1000 { ControlPartition(reg, b); }
    else if reg < 0x1040 { TensorPartition(reg, b); }
    else if reg < 0x3000 { InputPartition(reg, b); }
    else if reg < 0x4050 { OutputPartition(reg, b); }
    else { StagePartition(reg, b); }
  }

  lemma ControlPartition(reg: nat, b: nat)
    requires reg < 0x1000 && b < 32
    ensures !(ReservedBit(reg, b) && DescribedBit(reg, b))
    ensures ReservedBit(reg, b) || DescribedBit(reg, b) <==> TargetOf(reg) != 0
    ensures TargetOf(reg) != 0 ==> TargetOf(reg) == 0x100
  {
    hide ReservedInputBit, DescribedInputBit, ReservedOutputBit, DescribedOutputBit;
  }

  lemma TensorPartition(reg: nat, b: nat)
    requires 0x1000 <= reg < 0x1040 && b < 32
    ensures !(ReservedBit(reg, b) && DescribedBit(reg, b))
    ensures ReservedBit(reg, b) || DescribedBit(reg, b) <==> TargetOf(reg) != 0
    ensures TargetOf(reg) != 0 ==> TargetOf(reg) == 0x200
  {
    hide ReservedControlBit, DescribedControlBit, ReservedOutputBit, DescribedOutputBit;
  }

  lemma InputPartition(reg: nat, b: nat)
    requires 0x1040 <= reg < 0x3000 && b < 32
    ensures !(ReservedBit(reg, b) && DescribedBit(reg, b))
    ensures ReservedBit(reg, b) || DescribedBit(reg, b) <==> TargetOf(reg) != 0
    ensures TargetOf(reg) != 0 ==> TargetOf(reg) == 0x200
  {
    hide ReservedControlBit, DescribedControlBit, ReservedOutputBit, DescribedOutputBit;
  }

  lemma OutputPartition(reg: nat, b: nat)
    requires 0x3000 <= reg < 0x4050 && b < 32
    ensures !(ReservedBit(reg, b) && DescribedBit(reg, b))
    ensures ReservedBit(reg, b) || DescribedBit(reg, b) <==> TargetOf(reg) != 0
    ensures TargetOf(reg) != 0 ==> TargetOf(reg) == if reg < 0x4000 then 0x800 else 0x1000
  {
    hide ReservedControlBit, DescribedControlBit, ReservedInputBit, DescribedInputBit;
  }

  lemma StagePartition(reg: nat, b: nat)
    requires 0x4050 <= reg < 0x5000 && b < 32
    ensures !(ReservedBit(reg, b) && DescribedBit(reg, b))
    ensures ReservedBit(reg, b) || DescribedBit(reg, b) <==> TargetOf(reg) != 0
    ensures TargetOf(reg) != 0 ==> TargetOf(reg) == 0x1000
  {
    hide ReservedControlBit, DescribedControlBit, ReservedInputBit, DescribedInputBit;
  }

  predicate TargetMatches(c: Command, known: bool) {
    0 <= c.reg < 0x5000 && TargetOf(c.reg) == if known then c.op - 1 else 0
  }

  lemma InputTargets(i: nat, d: Descriptors)
    requires i <= 48
    ensures TargetMatches(CommandAt(i, d), true)
  {
  }

  lemma OutputTargets(i: nat, d: Descriptors)
    requires 48 < i < REGISTER_WRITES
    ensures TargetMatches(CommandAt(i, d), i != 53 && i != 91)
  {
  }

  /** The operation code of each write is the block that owns the register, plus bit 0. The only two
      registers that the description does not know are CORE_3030 and DPU_40C4. */
  lemma TargetAgrees(i: nat, d: Descriptors)
    requires i < REGISTER_WRITES
    ensures 0 <= CommandAt(i, d).reg < 0x5000
    ensures TargetOf(CommandAt(i, d).reg) == if i == 53 || i == 91 then 0 else CommandAt(i, d).op - 1
  {
    hide CommandAt, TargetOf;
    if i <= 48 { InputTargets(i, d); } else { OutputTargets(i, d); }
  }

  predicate Covered(fs: seq<Field>, b: nat) {
    exists j :: 0 <= j < |fs| && fs[j].shift <= b < fs[j].shift + fs[j].width
  }

  lemma ConvolutionAvoids(i: nat, d: Descriptors, b: nat)
    requires i <= 12 && i != 5 && b < 32 && ReservedBit(CommandAt(i, d).reg, b)
    ensures !Covered(CommandAt(i, d).fields, b)
  {
  }

  lemma InputAvoids(i: nat, d: Descriptors, b: nat)
    requires 12 < i <= 48 && b < 32 && ReservedBit(CommandAt(i, d).reg, b)
    ensures !Covered(CommandAt(i, d).fields, b)
  {
  }

  lemma OutputAvoids(i: nat, d: Descriptors, b: nat)
    requires 48 < i <= 70 && b < 32 && ReservedBit(CommandAt(i, d).reg, b)
    ensures !Covered(CommandAt(i, d).fields, b)
  {
  }

  lemma ElementwiseAvoids(i: nat, d: Descriptors, b: nat)
    requires 70 < i < REGISTER_WRITES && b < 32 && ReservedBit(CommandAt(i, d).reg, b)
    ensures !Covered(CommandAt(i, d).fields, b)
  {
  }

  /** Every field but one fits the space the description gives it. */
  lemma FieldsAvoidReserved(i: nat, d: Descriptors, b: nat)
    requires i < REGISTER_WRITES && i != 5 && b < 32 && CommandAt(i, d).reg >= 0 && ReservedBit(CommandAt(i, d).reg, b)
    ensures !Bit(Pack(CommandAt(i, d).fields), b)
  {
    hide CommandAt, ReservedBit;
    PackBit(CommandAt(i, d).fields, b);
    if i <= 12 { ConvolutionAvoids(i, d, b); }
    else if i <= 48 { InputAvoids(i, d, b); }
    else if i <= 70 { OutputAvoids(i, d, b); }
    else { ElementwiseAvoids(i, d, b); }
  }

  /** The exception, DATAIN_CHANNEL_REAL: written with 16 bits, given 14. */
  lemma ChannelReal(d: Descriptors, b: nat)
    requires 30 <= b < 32
    ensures Bit(Pack(CommandAt(5, d).fields), b) <==> Bit(d.cna.datainChannel - 1, b - 16)
  {
    var fs := CommandAt(5, d).fields;
    assert fs == [Field(d.cna.datainChannel - 1, 16, 16), Field(d.cna.datainChannel, 16, 0)];
    PackBit(fs, b);
    assert Supplies(fs[0], b) <==> Bit(d.cna.datainChannel - 1, b - 16);
  }

  ghost predicate NoBitsBetween(x: int, w: nat, v: nat) {
    forall i: nat :: w <= i < v ==> !Bit(x, i)
  }

  /** A number fits `w` bits exactly when it fits `v >= w` bits and the bits in between are clear. */
  lemma FitsNarrower(x: int, w: nat, v: nat)
    requires w <= v
    ensures 0 <= x <= Mask(w) <==> 0 <= x <= Mask(v) && NoBitsBetween(x, w, v)
  {
    forall i: nat
      ensures Bit(And(x, Mask(w)), i) <==> Bit(x, i) && i < w
      ensures Bit(And(x, Mask(v)), i) <==> Bit(x, i) && i < v
    {
      BitAnd(x, Mask(w), i);
      BitAnd(x, Mask(v), i);
      BitMask(w, i);
      BitMask(v, i);
    }
    MaskKeeps(x, w);
    MaskKeeps(x, v);
    if 0 <= x <= Mask(w) {
      MaskGrows(w, v);
      forall i: nat | w <= i < v
        ensures !Bit(x, i)
      {
        assert Bit(And(x, Mask(w)), i) <==> Bit(x, i) && i < w;
      }
    } else if 0 <= x <= Mask(v) && NoBitsBetween(x, w, v) {
      Extensional(And(x, Mask(w)), And(x, Mask(v)));
    }
  }

  lemma {:induction false} MaskGrows(w: nat, v: nat)
    requires w <= v
    ensures Mask(w) <= Mask(v)
  {
    if w > 0 { MaskGrows(w - 1, v - 1); }
  }

  predicate NoReservedBits(words: seq<nat>) {
    forall i, b :: 0 <= i < |words| && 0 <= b < 32 ==> Clear(words[i], b)
  }

  predicate Clear(word: nat, b: nat)
    requires b < 32
  {
    ReservedBit(Decode(word).reg, b) ==> !Bit(Decode(word).value, b)
  }

  /** A task leaves every reserved bit clear exactly when the channel count is 1 to 16384. */
  lemma ReservedClearIff(d: Descriptors)
    ensures NoReservedBits(TaskWords(d)) <==> 1 <= d.cna.datainChannel <= 16384
  {
    hide CommandAt, ReservedBit, Decode, Pack, Bit;
    var words := TaskWords(d);
    forall i, b | 0 <= i < REGISTER_WRITES && i != 5 && 0 <= b < 32
      ensures Clear(words[i], b)
    {
      CommandFits(i, d);
      WordValue(i, d);
      if ReservedBit(CommandAt(i, d).reg, b) { FieldsAvoidReserved(i, d, b); }
    }
    WordValue(5, d);
    ChannelBits(d);
    assert NoReservedBits(words) <==> Clear(words[5], 30) && Clear(words[5], 31) by {
      forall b: nat | b < 30
        ensures Clear(words[5], b)
      {
        OnlyTopBits(d, b);
      }
    }
  }

  lemma OnlyTopBits(d: Descriptors, b: nat)
    requires b < 32
    ensures 0 <= CommandAt(5, d).reg && (ReservedBit(CommandAt(5, d).reg, b) <==> b >= 30)
  {
  }

  lemma WordValue(i: nat, d: Descriptors)
    requires i < REGISTER_WRITES
    ensures Decode(TaskWords(d)[i]).reg == CommandAt(i, d).reg
    ensures Decode(TaskWords(d)[i]).value == Pack(CommandAt(i, d).fields)
  {
    hide Decode, Pack, CommandAt, NpuOp;
    FieldsShaped(i, d);
    PackFits(CommandAt(i, d).fields, 32);
    MaskIsModulo(Pack(CommandAt(i, d).fields), 32);
    MaskValues();
    DecodeCommand(i, d);
  }

  lemma ChannelBits(d: Descriptors)
    ensures Clear(TaskWords(d)[5], 30) && Clear(TaskWords(d)[5], 31) <==> 1 <= d.cna.datainChannel <= 16384
  {
    hide CommandAt, ReservedBit, Decode, Pack, Bit;
    var k := d.cna.datainChannel - 1;
    WordValue(5, d);
    OnlyTopBits(d, 30);
    OnlyTopBits(d, 31);
    ChannelReal(d, 30);
    ChannelReal(d, 31);
    FitsNarrower(k, 14, 16);
    MaskValues();
    if k == -1 { AllOnes(14); }
  }

  lemma {:induction false} AllOnes(i: nat)
    ensures Bit(-1, i)
  {
    if i > 0 { AllOnes(i - 1); }
  }
}
