/** The register writes of one encoded task, seen through the register file. */
module Task {
  import opened Bits
  import opened Descriptors
  import opened Commands
  import opened RegisterFile

  function TaskWords(d: Descriptors): (words: seq<nat>)
    ensures |words| == REGISTER_WRITES
    ensures forall i :: 0 <= i < REGISTER_WRITES ==> words[i] == Word(CommandAt(i, d))
  {
    seq(REGISTER_WRITES, i requires 0 <= i < REGISTER_WRITES => Word(CommandAt(i, d)))
  }

  lemma CommandFits(i: nat, d: Descriptors)
    requires i < TASK_LENGTH
    ensures 0 <= CommandAt(i, d).op < 0x1_0000 && 0 <= CommandAt(i, d).reg < 0x1_0000
  {
  }

  lemma RegStepInput(i: nat, d: Descriptors)
    requires 1 <= i < 53
    ensures CommandAt(i, d).reg < CommandAt(i + 1, d).reg
  {
  }

  lemma RegStepOutput(i: nat, d: Descriptors)
    requires 53 <= i < REGISTER_WRITES - 1
    ensures CommandAt(i, d).reg < CommandAt(i + 1, d).reg
  {
  }

  lemma RegStep(i: nat, d: Descriptors)
    requires 1 <= i < REGISTER_WRITES - 1
    ensures CommandAt(i, d).reg < CommandAt(i + 1, d).reg
  {
    hide CommandAt;
    if i < 53 { RegStepInput(i, d); } else { RegStepOutput(i, d); }
  }

  lemma {:induction false} RegIncreases(i: nat, j: nat, d: Descriptors)
    requires 1 <= i < j < REGISTER_WRITES
    ensures CommandAt(i, d).reg < CommandAt(j, d).reg
    decreases j
  {
    hide CommandAt;
    RegStep(j - 1, d);
    if i < j - 1 { RegIncreases(i, j - 1, d); }
  }

  /** The register offset tells the writes apart. */
  lemma RegDistinct(i: nat, j: nat, d: Descriptors)
    requires i < j < REGISTER_WRITES
    ensures CommandAt(i, d).reg != CommandAt(j, d).reg
  {
    if i > 0 {
      RegIncreases(i, j, d);
    } else if j <= 53 {
      if j < 53 { RegIncreases(j, 53, d); }
    } else if j > 54 {
      RegIncreases(54, j, d);
    }
  }

  lemma DecodeWord(c: Command)
    requires 0 <= c.op < 0x1_0000 && 0 <= c.reg < 0x1_0000
    ensures Decode(Word(c)) == Write(c.op, c.reg, Pack(c.fields) % 0x1_0000_0000)
  {
    hide Decode, NpuOp, Pack, Mask;
    DecodeNpuOp(c.op, Pack(c.fields), c.reg);
  }

  /** Decoding slot `i` gives its operation, its register and the 32-bit value of its fields. */
  lemma DecodeCommand(i: nat, d: Descriptors)
    requires i < TASK_LENGTH
    ensures var c := CommandAt(i, d); Decode(Word(c)) == Write(c.op, c.reg, Pack(c.fields) % 0x1_0000_0000)
  {
    hide Decode, NpuOp, Pack, CommandAt;
    CommandFits(i, d);
    DecodeWord(CommandAt(i, d));
  }

  /** No register is written twice. */
  lemma TaskKeysDistinct(d: Descriptors)
    ensures DistinctKeys(TaskWords(d))
  {
    hide Decode, NpuOp, Pack, CommandAt;
    forall i, j | 0 <= i < j < REGISTER_WRITES
      ensures Key(TaskWords(d)[i]) != Key(TaskWords(d)[j])
    {
      DecodeCommand(i, d);
      DecodeCommand(j, d);
      RegDistinct(i, j, d);
    }
  }

  /** The register writes of a task may be issued in any order. */
  lemma TaskOrderFree(d: Descriptors, other: seq<nat>)
    requires multiset(other) == multiset(TaskWords(d))
    ensures Run(other) == Run(TaskWords(d))
  {
    TaskKeysDistinct(d);
    OrderDoesNotMatter(TaskWords(d), other);
  }

  // ----- register values

  predicate Shaped(fs: seq<Field>) {
    Disjoint(fs) && forall j :: 0 <= j < |fs| ==> fs[j].shift + fs[j].width <= 32
  }

  lemma InputShaped(i: nat, d: Descriptors)
    requires i <= 27
    ensures Shaped(CommandAt(i, d).fields)
  {
  }

  lemma MiddleShaped(i: nat, d: Descriptors)
    requires 27 < i <= 70
    ensures Shaped(CommandAt(i, d).fields)
  {
  }

  lemma OutputShaped(i: nat, d: Descriptors)
    requires 70 < i < TASK_LENGTH
    ensures Shaped(CommandAt(i, d).fields)
  {
  }

  /** In no register do two fields share a bit, and every field lies inside the 32-bit value. */
  lemma FieldsShaped(i: nat, d: Descriptors)
    requires i < TASK_LENGTH
    ensures Shaped(CommandAt(i, d).fields)
  {
    hide CommandAt, Shaped;
    if i <= 27 { InputShaped(i, d); } else if i <= 70 { MiddleShaped(i, d); } else { OutputShaped(i, d); }
  }

  /** After the task, the register of slot `i` holds exactly the value packed for it. */
  lemma RegisterValue(i: nat, d: Descriptors)
    requires i < REGISTER_WRITES
    ensures Contains(Run(TaskWords(d)), (CommandAt(i, d).op, CommandAt(i, d).reg), Pack(CommandAt(i, d).fields))
  {
    hide Decode, Pack, CommandAt, NpuOp;
    var fs := CommandAt(i, d).fields;
    FieldsShaped(i, d);
    PackFits(fs, 32);
    MaskIsModulo(Pack(fs), 32);
    MaskValues();
    DecodeCommand(i, d);
    TaskKeysDistinct(d);
    RunLookup(TaskWords(d), Key(TaskWords(d)[i]), Pack(fs));
  }
}
