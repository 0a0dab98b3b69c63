/**
 * The execution engine as the source has it: three fixed arrays updated in
 * place (`regs`, `imem`, `dmem`), one method per handler, the dispatcher,
 * the loader's storing loop and the fetch/execute loop. The handlers,
 * Setup, Load and CheckRecord state their effect on the arrays directly or
 * through OpCodes.Decode; the constructor, InsExec, Cycle and Run are proved
 * equal to Boot, Exec, Step and Run of module Semantics through St(). The
 * input and output streams of IN and OUT are the sequences `input` and
 * `output`.
 */
module Engine {
  import opened Wrappers
  import opened OpCodes
  import opened Semantics

  class Machine {
    const regs: array<int>
    const imem: array<Instr>
    const dmem: array<int>
    var input: seq<int>
    var output: seq<int>

    /** The arrays have the source's sizes and are distinct. */
    ghost predicate Shaped()
      reads this
    {
      regs.Length == NumRegs && imem.Length == IAddrSize && dmem.Length == DAddrSize &&
      regs != dmem
    }

    /** Every stored instruction passed the loader's operand checks. */
    ghost predicate Valid()
      reads this, imem
    {
      Shaped() && forall k :: 0 <= k < imem.Length ==> WellFormed(imem[k])
    }

    /** The machine as a value of the reference semantics. */
    ghost function St(): State
      reads this, regs, imem, dmem
    {
      State(regs[..], imem[..], dmem[..], input, output)
    }

    /** Allocates the three memories and runs `vm_setup` on them. */
    constructor (input: seq<int>)
      ensures Valid() && St() == Boot([], input)
      ensures fresh(regs) && fresh(imem) && fresh(dmem)
    {
      regs := new int[NumRegs];
      imem := new Instr[IAddrSize];
      dmem := new int[DAddrSize];
      this.input := input;
      output := [];
      new;
      Setup();
      assert regs[..] == Boot([], input).regs;
      assert imem[..] == Boot([], input).imem;
      assert dmem[..] == Boot([], input).dmem;
    }

    /** `vm_setup`: every register 0, every instruction HALT 0 0 0, every data cell 0. */
    method Setup()
      requires Shaped()
      modifies regs, imem, dmem
      ensures Valid()
      ensures forall k :: 0 <= k < NumRegs ==> regs[k] == 0
      ensures forall k :: 0 <= k < IAddrSize ==> imem[k] == HaltInstr
      ensures forall k :: 0 <= k < DAddrSize ==> dmem[k] == 0
    {
      for i := 0 to NumRegs
        invariant forall k :: 0 <= k < i ==> regs[k] == 0
      {
        regs[i] := 0;
      }
      for i := 0 to IAddrSize
        invariant forall k :: 0 <= k < NumRegs ==> regs[k] == 0
        invariant forall k :: 0 <= k < i ==> imem[k] == HaltInstr
      {
        imem[i] := Instr(HALT, 0, 0, 0);
      }
      for i := 0 to DAddrSize
        invariant forall k :: 0 <= k < NumRegs ==> regs[k] == 0
        invariant forall k :: 0 <= k < IAddrSize ==> imem[k] == HaltInstr
        invariant forall k :: 0 <= k < i ==> dmem[k] == 0
      {
        dmem[i] := 0;
      }
    }

    /**
     * The storing loop of `vm_load`: each record is looked up and checked in
     * the source's order and stored at the next address from 0; the first
     * failing record ends the load with its error. The source stores past the
     * end of instruction memory for a longer program, so that is excluded.
     */
    method Load(prog: seq<Record>) returns (err: Option<LoadError>)
      requires Valid() && |prog| <= IAddrSize
      modifies imem
      ensures Valid()
      ensures DecodeAll(prog).Ok? ==>
        err == None && imem[..] == DecodeAll(prog).value + old(imem[|prog|..])
      ensures DecodeAll(prog).Err? ==> err == Some(DecodeAll(prog).error)
    {
      var i := 0;
      while i < |prog|
        invariant 0 <= i <= |prog| && Valid()
        invariant forall k :: 0 <= k < i ==> Decode(prog[k]) == Ok(imem[k])
        invariant forall k :: i <= k < IAddrSize ==> imem[k] == old(imem[k])
      {
        var res := CheckRecord(prog[i]);
        if res.Err? {
          DecodeAllFirstError(prog, i);
          return Some(res.error);
        }
        imem[i] := res.value;
        i := i + 1;
      }
      ghost var loaded := DecodeAll(prog).value;
      forall k | 0 <= k < IAddrSize
        ensures imem[..][k] == (loaded + old(imem[|prog|..]))[k]
      {
      }
      return None;
    }

    /**
     * The checks `vm_load` makes on one record, in order: the mnemonic must
     * be in the table, the first two operands must be registers, and the
     * third must be one only for the register-register class.
     */
    static method CheckRecord(rec: Record) returns (res: Result<Instr, LoadError>)
      ensures res == Decode(rec)
    {
      var op := MapIns(rec.mnemonic);
      if op.None? {
        return Err(NoSuchOpcode);
      }
      if !IsReg(rec.r) {
        return Err(BadArg1);
      }
      if !IsReg(rec.s) {
        return Err(BadArg2);
      }
      if IsRegReg(op.value) && !IsReg(rec.t) {
        return Err(BadArg3);
      }
      return Ok(Instr(op.value, rec.r, rec.s, rec.t));
    }

    /** `in_exec`: the next input goes to `regs[r]`; at end of input nothing is read. */
    method InExec(inp: Instr) returns (st: Status)
      requires Valid() && IsReg(inp.arg1)
      modifies regs, this`input
      ensures Valid()
      ensures st == Okay
      ensures old(input) == [] ==> regs[..] == old(regs[..]) && input == old(input)
      ensures old(input) != [] ==>
        regs[..] == old(regs[..])[inp.arg1 := old(input)[0]] && input == old(input)[1..]
    {
      if input != [] {
        regs[inp.arg1] := input[0];
        input := input[1..];
      }
      st := Okay;
    }

    /** `out_exec`: `regs[r]` is appended to the output. */
    method OutExec(inp: Instr) returns (st: Status)
      requires Valid() && IsReg(inp.arg1)
      modifies this`output
      ensures Valid()
      ensures st == Okay && output == old(output) + [regs[inp.arg1]]
    {
      output := output + [regs[inp.arg1]];
      st := Okay;
    }

    /** `add_exec`: `regs[r] = regs[s] + regs[t]`. */
    method AddExec(inp: Instr) returns (st: Status)
      requires Valid() && IsReg(inp.arg1) && IsReg(inp.arg2) && IsReg(inp.arg3)
      modifies regs
      ensures Valid()
      ensures st == Okay
      ensures regs[..] == old(regs[..])[inp.arg1 := old(regs[inp.arg2] + regs[inp.arg3])]
    {
      regs[inp.arg1] := regs[inp.arg2] + regs[inp.arg3];
      st := Okay;
    }

    /** `sub_exec`: `regs[r] = regs[s] - regs[t]`. */
    method SubExec(inp: Instr) returns (st: Status)
      requires Valid() && IsReg(inp.arg1) && IsReg(inp.arg2) && IsReg(inp.arg3)
      modifies regs
      ensures Valid()
      ensures st == Okay
      ensures regs[..] == old(regs[..])[inp.arg1 := old(regs[inp.arg2] - regs[inp.arg3])]
    {
      regs[inp.arg1] := regs[inp.arg2] - regs[inp.arg3];
      st := Okay;
    }

    /** `mul_exec`: `regs[r] = regs[s] * regs[t]`. */
    method MulExec(inp: Instr) returns (st: Status)
      requires Valid() && IsReg(inp.arg1) && IsReg(inp.arg2) && IsReg(inp.arg3)
      modifies regs
      ensures Valid()
      ensures st == Okay
      ensures regs[..] == old(regs[..])[inp.arg1 := old(regs[inp.arg2] * regs[inp.arg3])]
    {
      regs[inp.arg1] := regs[inp.arg2] * regs[inp.arg3];
      st := Okay;
    }

    /** `div_exec`: a zero divisor faults with nothing changed; otherwise the truncated quotient. */
    method DivExec(inp: Instr) returns (st: Status)
      requires Valid() && IsReg(inp.arg1) && IsReg(inp.arg2) && IsReg(inp.arg3)
      modifies regs
      ensures Valid()
      ensures old(regs[inp.arg3]) == 0 ==> st == DivideZeroErr && regs[..] == old(regs[..])
      ensures old(regs[inp.arg3]) != 0 ==>
        st == Okay && regs[..] == old(regs[..])[inp.arg1 := CDiv(old(regs[inp.arg2]), old(regs[inp.arg3]))]
    {
      if regs[inp.arg3] == 0 {
        return DivideZeroErr;
      }
      regs[inp.arg1] := CDiv(regs[inp.arg2], regs[inp.arg3]);
      st := Okay;
    }

    /** `ld_exec`: `regs[r] = dmem[regs[s] + t]`, or DMemErr with nothing changed. */
    method LdExec(inp: Instr) returns (st: Status)
      requires Valid() && IsReg(inp.arg1) && IsReg(inp.arg2)
      modifies regs
      ensures Valid()
      ensures var a := old(regs[inp.arg2]) + inp.arg3;
        if a < 0 || a >= DAddrSize then st == DMemErr && regs[..] == old(regs[..])
        else st == Okay && regs[..] == old(regs[..])[inp.arg1 := dmem[a]]
    {
      var a := regs[inp.arg2] + inp.arg3;
      if a < 0 || a >= DAddrSize {
        return DMemErr;
      }
      regs[inp.arg1] := dmem[a];
      st := Okay;
    }

    /** `st_exec`: `dmem[regs[s] + t] = regs[r]`, or DMemErr with nothing changed. */
    method StExec(inp: Instr) returns (st: Status)
      requires Valid() && IsReg(inp.arg1) && IsReg(inp.arg2)
      modifies dmem
      ensures Valid()
      ensures var a := regs[inp.arg2] + inp.arg3;
        if a < 0 || a >= DAddrSize then st == DMemErr && dmem[..] == old(dmem[..])
        else st == Okay && dmem[..] == old(dmem[..])[a := regs[inp.arg1]]
    {
      var a := regs[inp.arg2] + inp.arg3;
      if a < 0 || a >= DAddrSize {
        return DMemErr;
      }
      dmem[a] := regs[inp.arg1];
      st := Okay;
    }

    /** `lda_exec`: `regs[r] = regs[s] + t`, or DMemErr when that is not a data address. */
    method LdaExec(inp: Instr) returns (st: Status)
      requires Valid() && IsReg(inp.arg1) && IsReg(inp.arg2)
      modifies regs
      ensures Valid()
      ensures var a := old(regs[inp.arg2]) + inp.arg3;
        if a < 0 || a >= DAddrSize then st == DMemErr && regs[..] == old(regs[..])
        else st == Okay && regs[..] == old(regs[..])[inp.arg1 := a]
    {
      var a := regs[inp.arg2] + inp.arg3;
      if a < 0 || a >= DAddrSize {
        return DMemErr;
      }
      regs[inp.arg1] := a;
      st := Okay;
    }

    /** `ldc_exec`: `regs[r] = t`; the second operand is ignored. */
    method LdcExec(inp: Instr) returns (st: Status)
      requires Valid() && IsReg(inp.arg1)
      modifies regs
      ensures Valid()
      ensures st == Okay && regs[..] == old(regs[..])[inp.arg1 := inp.arg3]
    {
      regs[inp.arg1] := inp.arg3;
      st := Okay;
    }

    /** `jlt_exec`: target checked first; the PC is set when `regs[r] < 0`. */
    method JltExec(inp: Instr) returns (st: Status)
      requires Valid() && IsReg(inp.arg1) && IsReg(inp.arg2)
      modifies regs
      ensures Valid()
      ensures var a := old(regs[inp.arg2]) + inp.arg3;
        if a < 0 || a >= IAddrSize then st == IMemErr && regs[..] == old(regs[..])
        else st == Okay && regs[..] == (if old(regs[inp.arg1]) < 0 then old(regs[..])[PC := a] else old(regs[..]))
    {
      var a := regs[inp.arg2] + inp.arg3;
      if a < 0 || a >= IAddrSize {
        return IMemErr;
      }
      if regs[inp.arg1] < 0 {
        regs[PC] := a;
      }
      st := Okay;
    }

    /** `jle_exec`: target checked first; the PC is set when `regs[r] <= 0`. */
    method JleExec(inp: Instr) returns (st: Status)
      requires Valid() && IsReg(inp.arg1) && IsReg(inp.arg2)
      modifies regs
      ensures Valid()
      ensures var a := old(regs[inp.arg2]) + inp.arg3;
        if a < 0 || a >= IAddrSize then st == IMemErr && regs[..] == old(regs[..])
        else st == Okay && regs[..] == (if old(regs[inp.arg1]) <= 0 then old(regs[..])[PC := a] else old(regs[..]))
    {
      var a := regs[inp.arg2] + inp.arg3;
      if a < 0 || a >= IAddrSize {
        return IMemErr;
      }
      if regs[inp.arg1] <= 0 {
        regs[PC] := a;
      }
      st := Okay;
    }

    /** `jgt_exec`: target checked first; the PC is set when `regs[r] > 0`. */
    method JgtExec(inp: Instr) returns (st: Status)
      requires Valid() && IsReg(inp.arg1) && IsReg(inp.arg2)
      modifies regs
      ensures Valid()
      ensures var a := old(regs[inp.arg2]) + inp.arg3;
        if a < 0 || a >= IAddrSize then st == IMemErr && regs[..] == old(regs[..])
        else st == Okay && regs[..] == (if old(regs[inp.arg1]) > 0 then old(regs[..])[PC := a] else old(regs[..]))
    {
      var a := regs[inp.arg2] + inp.arg3;
      if a < 0 || a >= IAddrSize {
        return IMemErr;
      }
      if regs[inp.arg1] > 0 {
        regs[PC] := a;
      }
      st := Okay;
    }

    /** `jge_exec`: target checked first; the PC is set when `regs[r] >= 0`. */
    method JgeExec(inp: Instr) returns (st: Status)
      requires Valid() && IsReg(inp.arg1) && IsReg(inp.arg2)
      modifies regs
      ensures Valid()
      ensures var a := old(regs[inp.arg2]) + inp.arg3;
        if a < 0 || a >= IAddrSize then st == IMemErr && regs[..] == old(regs[..])
        else st == Okay && regs[..] == (if old(regs[inp.arg1]) >= 0 then old(regs[..])[PC := a] else old(regs[..]))
    {
      var a := regs[inp.arg2] + inp.arg3;
      if a < 0 || a >= IAddrSize {
        return IMemErr;
      }
      if regs[inp.arg1] >= 0 {
        regs[PC] := a;
      }
      st := Okay;
    }

    /** `jeq_exec`: target checked first; the PC is set when `regs[r] == 0`. */
    method JeqExec(inp: Instr) returns (st: Status)
      requires Valid() && IsReg(inp.arg1) && IsReg(inp.arg2)
      modifies regs
      ensures Valid()
      ensures var a := old(regs[inp.arg2]) + inp.arg3;
        if a < 0 || a >= IAddrSize then st == IMemErr && regs[..] == old(regs[..])
        else st == Okay && regs[..] == (if old(regs[inp.arg1]) == 0 then old(regs[..])[PC := a] else old(regs[..]))
    {
      var a := regs[inp.arg2] + inp.arg3;
      if a < 0 || a >= IAddrSize {
        return IMemErr;
      }
      if regs[inp.arg1] == 0 {
        regs[PC] := a;
      }
      st := Okay;
    }

    /** `jne_exec`: target checked first; the PC is set when `regs[r] != 0`. */
    method JneExec(inp: Instr) returns (st: Status)
      requires Valid() && IsReg(inp.arg1) && IsReg(inp.arg2)
      modifies regs
      ensures Valid()
      ensures var a := old(regs[inp.arg2]) + inp.arg3;
        if a < 0 || a >= IAddrSize then st == IMemErr && regs[..] == old(regs[..])
        else st == Okay && regs[..] == (if old(regs[inp.arg1]) != 0 then old(regs[..])[PC := a] else old(regs[..]))
    {
      var a := regs[inp.arg2] + inp.arg3;
      if a < 0 || a >= IAddrSize {
        return IMemErr;
      }
      if regs[inp.arg1] != 0 {
        regs[PC] := a;
      }
      st := Okay;
    }

    /**
     * `ins_exec`: dispatch on the opcode; HALT and the three limit markers
     * have no handler and yield NoInsErr. The effect is that of Exec.
     */
    method InsExec(inp: Instr) returns (st: Status)
      requires Valid() && WellFormed(inp)
      modifies this, regs, dmem
      ensures Valid()
      ensures st == Exec(old(St()), inp).status && St() == Exec(old(St()), inp).state
    {
      match inp.op
      case IN => st := InExec(inp);
      case OUT => st := OutExec(inp);
      case ADD => st := AddExec(inp);
      case SUB => st := SubExec(inp);
      case MUL => st := MulExec(inp);
      case DIV => st := DivExec(inp);
      case LD => st := LdExec(inp);
      case ST => st := StExec(inp);
      case LDA => st := LdaExec(inp);
      case LDC => st := LdcExec(inp);
      case JLT => st := JltExec(inp);
      case JLE => st := JleExec(inp);
      case JGT => st := JgtExec(inp);
      case JGE => st := JgeExec(inp);
      case JEQ => st := JeqExec(inp);
      case JNE => st := JneExec(inp);
      case HALT | RRLIM | RMLIM | RALIM => st := NoInsErr;
    }

    /**
     * One pass of `vm_run`'s loop: fetch at the PC, stop on HALT, execute,
     * stop on a fault, and otherwise advance the PC unless the instruction
     * was a branch. Agrees with Semantics.Step.
     */
    method Cycle() returns (stop: Option<Stop>)
      requires Valid()
      modifies this, regs, dmem
      ensures Valid()
      ensures Step(old(St())) == if stop.None? then Next(St()) else Stopped(stop.value, St())
    {
      ghost var s := St();
      var pc := regs[PC];
      if pc < 0 || pc >= IAddrSize {
        return Some(BadFetch);
      }
      var inp := imem[pc];
      assert inp == s.imem[pc];
      if inp.op == HALT {
        return Some(Halted);
      }
      var st := InsExec(inp);
      if st != Okay {
        return Some(Faulted(st));
      }
      if AdvancesPc(inp.op) {
        regs[PC] := regs[PC] + 1;
      }
      return None;
    }

    /**
     * `vm_run` with a budget of `fuel` fetches: None when the budget runs
     * out, otherwise why the machine stopped. The run agrees with
     * Semantics.Run step for step.
     */
    method Run(fuel: nat) returns (stop: Option<Stop>)
      requires Valid()
      modifies this, regs, dmem
      ensures Valid()
      ensures Semantics.Run(old(St()), fuel) ==
        if stop.None? then OutOfFuel(St()) else Finished(stop.value, St())
    {
      var n: nat := fuel;
      while n > 0
        invariant n <= fuel && Valid()
        invariant Semantics.Run(old(St()), fuel) == Semantics.Run(St(), n)
      {
        ghost var s := St();
        RunUnfold(s, n);
        stop := Cycle();
        if stop.Some? {
          return;
        }
        n := n - 1;
      }
      return None;
    }
  }

  /**
   * `main`'s `vm_setup(); vm_load();` on a fresh machine: a program that
   * loads leaves the machine in exactly the state Boot describes, so the
   * runs stated about Boot are runs of the machine.
   */
  method Start(prog: seq<Record>, input: seq<int>) returns (m: Machine, err: Option<LoadError>)
    requires |prog| <= IAddrSize
    ensures fresh(m) && m.Valid()
    ensures DecodeAll(prog).Ok? ==> err == None && m.St() == Boot(DecodeAll(prog).value, input)
    ensures DecodeAll(prog).Err? ==> err == Some(DecodeAll(prog).error)
  {
    m := new Machine(input);
    ghost var blank := m.imem[..];
    err := m.Load(prog);
    if DecodeAll(prog).Ok? {
      var code := DecodeAll(prog).value;
      assert forall k :: 0 <= k < |code| ==> WellFormed(code[k]) by {
        forall k | 0 <= k < |code| ensures WellFormed(code[k]) {
          assert Decode(prog[k]).Ok?;
        }
      }
      assert blank[|prog|..] == seq(IAddrSize - |code|, _ => HaltInstr);
      assert m.St() == Boot(code, input);
    }
  }
}
