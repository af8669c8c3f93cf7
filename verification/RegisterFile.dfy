/** What a command list leaves behind: each 64-bit word is decoded and written to a register file,
    the last write to a register winning. */
module RegisterFile {
  import opened Bits
  import opened Commands
  import opened Permutation

  datatype Write = Write(op: int, reg: int, value: nat)

  function Decode(word: nat): Write {
    Write(Extract(word, 16, 48), Extract(word, 16, 0), Extract(word, 32, 16))
  }

  /** A register is known by the block it lives in (the operation code) and its offset. */
  type Registers = map<(int, int), nat>

  function Key(word: nat): (int, int) {
    (Decode(word).op, Decode(word).reg)
  }

  function Run(words: seq<nat>): Registers {
    if |words| == 0 then map[]
    else
      var last := words[|words| - 1];
      Run(words[..|words| - 1])[Key(last) := Decode(last).value]
  }

  /** `width` bits at position `shift` of a register; 0 if the register was never written. */
  function Read(regs: Registers, op: int, reg: int, width: nat, shift: nat): nat {
    if (op, reg) in regs then Extract(regs[(op, reg)], width, shift) else 0
  }

  // ----- one word

  lemma NpuOpIsPack(op: int, value: int, reg: int)
    ensures NpuOp(op, value, reg) == Pack([Field(op, 16, 48), Field(value, 32, 16), Field(reg, 16, 0)])
  {
    hide And, Or, Shl, Mask;
    var a, b, c := Field(op, 16, 48), Field(value, 32, 16), Field(reg, 16, 0);
    MaskValues();
    PackUnfolds();
  }

  /** Decoding a command word returns its three parts, each reduced to its width; the word itself
      is a 64-bit number. */
  lemma DecodeNpuOp(op: int, value: int, reg: int)
    ensures Decode(NpuOp(op, value, reg)) == Write(op % 0x1_0000, reg % 0x1_0000, value % 0x1_0000_0000)
    ensures NpuOp(op, value, reg) <= Mask(64)
  {
    hide And, Mask, Extract, NpuOp, Pack;
    var fs := [Field(op, 16, 48), Field(value, 32, 16), Field(reg, 16, 0)];
    NpuOpIsPack(op, value, reg);
    ExtractPack(fs, 0);
    ExtractPack(fs, 1);
    ExtractPack(fs, 2);
    PackFits(fs, 64);
    MaskIsModulo(op, 16);
    MaskIsModulo(value, 32);
    MaskIsModulo(reg, 16);
    MaskValues();
  }

  /** The same two statements in ordinary arithmetic: where the parts of a word are. */
  lemma NpuOpIsNumber(op: int, value: int, reg: int)
    ensures NpuOp(op, value, reg)
         == op % 0x1_0000 * 0x1_0000_0000_0000 + value % 0x1_0000_0000 * 0x1_0000 + reg % 0x1_0000
  {
    hide And, Mask, Pack, NpuOp, Total, Amount;
    var fs := [Field(op, 16, 48), Field(value, 32, 16), Field(reg, 16, 0)];
    NpuOpIsPack(op, value, reg);
    PackIsTotal(fs);
    TotalUnfolds();
    MaskValues();
    PositionWeights();
    AmountIs(fs[0], 0x1_0000, 0x1_0000_0000_0000);
    AmountIs(fs[1], 0x1_0000_0000, 0x1_0000);
    AmountIs(fs[2], 0x1_0000, 1);
  }

  lemma DecodeIsDivision(word: nat)
    ensures Decode(word)
         == Write(word / 0x1_0000_0000_0000 % 0x1_0000, word % 0x1_0000, word / 0x1_0000 % 0x1_0000_0000)
  {
    hide And, Mask, Shr;
    MaskValues();
    PositionWeights();
    ShrIsQuotient(word, 48);
    ShrIsQuotient(word, 16);
    ShrIsQuotient(word, 0);
    MaskIsModulo(word / 0x1_0000_0000_0000, 16);
    MaskIsModulo(word / 0x1_0000, 32);
    MaskIsModulo(word, 16);
  }

  lemma PositionWeights()
    ensures Mask(0) == 0 && Mask(48) == 0xFFFF_FFFF_FFFF
  {
    assert Mask(32) == 0xFFFF_FFFF by { MaskValues(); }
    assert Mask(36) == 0xF_FFFF_FFFF;
    assert Mask(40) == 0xFF_FFFF_FFFF;
    assert Mask(44) == 0xFFF_FFFF_FFFF;
  }

  // ----- whole lists

  predicate DistinctKeys(words: seq<nat>) {
    forall i, j :: 0 <= i < j < |words| ==> Key(words[i]) != Key(words[j])
  }

  predicate Contains(regs: Registers, key: (int, int), value: int) {
    key in regs && regs[key] == value
  }

  /** The last write to a register wins, and a register that is never written has no value. */
  lemma {:induction false} LastWriteWins(words: seq<nat>, key: (int, int), value: int)
    ensures Contains(Run(words), key, value)
       <==> exists i :: 0 <= i < |words| && Key(words[i]) == key && Decode(words[i]).value == value
                        && forall j :: i < j < |words| ==> Key(words[j]) != key
  {
    hide Decode, Key;
    if |words| > 0 {
      var l := |words| - 1;
      LastWriteWins(words[..l], key, value);
      if Key(words[l]) != key {
        if i :| 0 <= i < l && Key(words[..l][i]) == key && Decode(words[..l][i]).value == value
                && forall j :: i < j < l ==> Key(words[..l][j]) != key {
          assert Key(words[i]) == key && forall j :: i < j < l ==> words[..l][j] == words[j];
        }
        if i :| 0 <= i < |words| && Key(words[i]) == key && Decode(words[i]).value == value
                && forall j :: i < j < |words| ==> Key(words[j]) != key {
          assert words[..l][i] == words[i] && forall j :: i < j < l ==> words[..l][j] == words[j];
        }
      }
    }
  }

  /** When no register is written twice, the file holds exactly the writes of the list. */
  lemma {:induction false} RunLookup(words: seq<nat>, key: (int, int), value: int)
    requires DistinctKeys(words)
    ensures Contains(Run(words), key, value)
       <==> exists i :: 0 <= i < |words| && Key(words[i]) == key && Decode(words[i]).value == value
  {
    hide Decode;
    if |words| > 0 {
      var l := |words| - 1;
      RunLookup(words[..l], key, value);
      if i :| 0 <= i < |words| && Key(words[i]) == key && Decode(words[i]).value == value {
        if i < l { assert words[..l][i] == words[i]; }
      }
    }
  }

  /** ... and has as many registers as the list has writes. */
  lemma {:induction false} RunSize(words: seq<nat>)
    requires DistinctKeys(words)
    ensures |Run(words)| == |words|
  {
    hide Decode, Key;
    if |words| > 0 {
      var l := |words| - 1;
      RunSize(words[..l]);
      if Key(words[l]) in Run(words[..l]) {
        RunLookup(words[..l], Key(words[l]), Run(words[..l])[Key(words[l])]);
      }
    }
  }

  lemma DistinctPermutes(words: seq<nat>, other: seq<nat>)
    requires DistinctKeys(words) && multiset(words) == multiset(other)
    ensures DistinctKeys(other)
  {
    hide Decode, Key;
    forall i, j | 0 <= i < j < |other|
      ensures Key(other[i]) != Key(other[j])
    {
      Multiplicity(other, other[i]);
      Multiplicity(other, other[j]);
      Multiplicity(words, other[i]);
      Multiplicity(words, other[j]);
    }
  }

  /** Writes to distinct registers commute: every rearrangement leaves the same file. */
  lemma OrderDoesNotMatter(words: seq<nat>, other: seq<nat>)
    requires DistinctKeys(words) && multiset(words) == multiset(other)
    ensures Run(words) == Run(other)
  {
    DistinctPermutes(words, other);
    forall key, value
      ensures Contains(Run(words), key, value) <==> Contains(Run(other), key, value)
    {
      RunLookup(words, key, value);
      RunLookup(other, key, value);
      SameMembers(words, other);
      assert forall i :: 0 <= i < |words| ==> words[i] in other;
      assert forall i :: 0 <= i < |other| ==> other[i] in words;
    }
    assert forall key :: key in Run(words) ==> Contains(Run(words), key, Run(words)[key]);
    assert forall key :: key in Run(other) ==> Contains(Run(other), key, Run(other)[key]);
  }

  lemma SameMembers(words: seq<nat>, other: seq<nat>)
    requires multiset(words) == multiset(other)
    ensures forall w :: w in words <==> w in other
  {
    forall w: nat
      ensures w in words <==> w in other
    {
      Multiplicity(words, w);
      Multiplicity(other, w);
    }
  }
}
