/**
 * Whole programs, from their text records through the loader's decision to
 * the end of the run.
 */
module Programs {
  import opened Wrappers
  import opened OpCodes
  import opened Semantics

  /** The text record a program writes for `op` with its three operands. */
  function Line(op: Op, r: int, s: int, t: int): Record {
    Record(OpCodeTab[Tag(op)], r, s, t)
  }

  /** HALT 0 0 0 alone: stops on the first fetch and changes nothing. */
  lemma HaltOnly(input: seq<int>, fuel: nat)
    requires fuel >= 1
    ensures DecodeAll([Line(HALT, 0, 0, 0)]) == Ok([HaltInstr])
    ensures Run(Boot([HaltInstr], input), fuel) == Finished(Halted, Boot([HaltInstr], input))
  {
    DecodeName(HALT, 0, 0, 0);
    DecodeAllOk([Line(HALT, 0, 0, 0)], [HaltInstr]);
  }

  const SumText: seq<Record> :=
    [Line(LDC, 0, 0, 5), Line(LDC, 1, 0, 3), Line(ADD, 2, 0, 1),
     Line(OUT, 2, 0, 0), Line(HALT, 0, 0, 0)]

  const SumCode: seq<Instr> :=
    [Instr(LDC, 0, 0, 5), Instr(LDC, 1, 0, 3), Instr(ADD, 2, 0, 1),
     Instr(OUT, 2, 0, 0), HaltInstr]

  lemma SumProgramDecodes()
    ensures DecodeAll(SumText) == Ok(SumCode)
  {
    forall k | 0 <= k < |SumText| ensures Decode(SumText[k]) == Ok(SumCode[k]) {
      if k == 0 {
        DecodeName(LDC, 0, 0, 5);
      } else if k == 1 {
        DecodeName(LDC, 1, 0, 3);
      } else if k == 2 {
        DecodeName(ADD, 2, 0, 1);
      } else if k == 3 {
        DecodeName(OUT, 2, 0, 0);
      } else {
        DecodeName(HALT, 0, 0, 0);
      }
    }
    DecodeAllOk(SumText, SumCode);
  }

  /** Loads 5 and 3, adds them into register 2, writes 8 and halts. */
  lemma SumProgramRuns()
    ensures var r := Run(Boot(SumCode, []), 5);
      r.Finished? && r.stop == Halted && r.state.output == [8] && r.state.regs[2] == 8 &&
      r.state.regs == [5, 3, 8, 0, 0, 0, 0, 4]
  {
    var s0 := Boot(SumCode, []);
    var s1 := s0.(regs := [5, 0, 0, 0, 0, 0, 0, 1]);
    assert Step(s0) == Next(s1);
    var s2 := s0.(regs := [5, 3, 0, 0, 0, 0, 0, 2]);
    assert Step(s1) == Next(s2);
    var s3 := s0.(regs := [5, 3, 8, 0, 0, 0, 0, 3]);
    assert Step(s2) == Next(s3);
    var s4 := s0.(regs := [5, 3, 8, 0, 0, 0, 0, 4], output := [8]);
    assert Step(s3) == Next(s4);
    assert Step(s4) == Stopped(Halted, s4);
    RunUnfold(s0, 5);
    RunUnfold(s1, 4);
    RunUnfold(s2, 3);
    RunUnfold(s3, 2);
    RunUnfold(s4, 1);
  }

  const DivZeroCode: seq<Instr> := [Instr(LDC, 0, 0, 0), Instr(DIV, 1, 0, 0), HaltInstr]

  const DivZeroText: seq<Record> :=
    [Line(LDC, 0, 0, 0), Line(DIV, 1, 0, 0), Line(HALT, 0, 0, 0)]

  lemma DivByZeroProgramDecodes()
    ensures DecodeAll(DivZeroText) == Ok(DivZeroCode)
  {
    forall k | 0 <= k < |DivZeroText| ensures Decode(DivZeroText[k]) == Ok(DivZeroCode[k]) {
      if k == 0 {
        DecodeName(LDC, 0, 0, 0);
      } else if k == 1 {
        DecodeName(DIV, 1, 0, 0);
      } else {
        DecodeName(HALT, 0, 0, 0);
      }
    }
    DecodeAllOk(DivZeroText, DivZeroCode);
  }

  /** Dividing by register 0, itself 0, faults at the DIV with register 1 unchanged. */
  lemma DivByZeroProgramRuns(fuel: nat)
    requires fuel >= 2
    ensures var r := Run(Boot(DivZeroCode, []), fuel);
      r.Finished? && r.stop == Faulted(DivideZeroErr) && r.state.regs[1] == 0 && r.state.regs[PC] == 1
  {
    var s0 := Boot(DivZeroCode, []);
    var s1 := s0.(regs := [0, 0, 0, 0, 0, 0, 0, 1]);
    assert Step(s0) == Next(s1);
    assert Step(s1) == Stopped(Faulted(DivideZeroErr), s1);
    assert Run(s0, fuel) == Finished(Faulted(DivideZeroErr), s1);
  }

  /**
   * "???" passes the loader as RRLIM, with any third operand, and is the
   * one way a program reaches NoInsErr.
   */
  lemma QuestionMarksProgram(t: int, input: seq<int>, fuel: nat)
    requires fuel >= 1
    ensures DecodeAll([Record("???", 0, 0, t)]) == Ok([Instr(RRLIM, 0, 0, t)])
    ensures var s := Boot([Instr(RRLIM, 0, 0, t)], input);
      Run(s, fuel) == Finished(Faulted(NoInsErr), s)
  {
    LookupQuestionMarks();
    DecodeAllOk([Record("???", 0, 0, t)], [Instr(RRLIM, 0, 0, t)]);
  }

  /**
   * `JGT 0 0 5` followed by HALT: register 0 is 0, so the branch is not
   * taken, and instead of falling through to the HALT the machine fetches
   * the same branch for ever.
   */
  lemma NotTakenBranchProgram(fuel: nat)
    ensures var s := Boot([Instr(JGT, 0, 0, 5), HaltInstr], []);
      Run(s, fuel) == OutOfFuel(s)
  {
    var s := Boot([Instr(JGT, 0, 0, 5), HaltInstr], []);
    NotTakenBranchSpins(s, fuel);
  }

  /**
   * The fetch is not bounds-checked in the source: `LDC 7 0 5000` passes the
   * loader, writes the PC, the PC is still incremented, and the next fetch
   * is outside instruction memory, which stops the model with BadFetch.
   */
  lemma PcOutOfRangeProgram(fuel: nat)
    requires fuel >= 2
    ensures DecodeAll([Line(LDC, PC, 0, 5000)]) == Ok([Instr(LDC, PC, 0, 5000)])
    ensures var s := Boot([Instr(LDC, PC, 0, 5000)], []);
      Run(s, fuel) == Finished(BadFetch, s.(regs := s.regs[PC := 5001]))
  {
    DecodeName(LDC, PC, 0, 5000);
    DecodeAllOk([Line(LDC, PC, 0, 5000)], [Instr(LDC, PC, 0, 5000)]);
    var s0 := Boot([Instr(LDC, PC, 0, 5000)], []);
    var s1 := s0.(regs := s0.regs[PC := 5001]);
    assert Step(s0) == Next(s1);
    assert Step(s1) == Stopped(BadFetch, s1);
    RunUnfold(s0, fuel);
    RunUnfold(s1, fuel - 1);
  }
}
