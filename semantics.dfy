/**
 * The reference semantics of the machine, on values: one function per stage
 * of the cycle (execute one instruction, take one fetch/execute step, run
 * with a step budget) and the properties the handlers and the loop promise.
 * Integers are mathematical: C's signed overflow, which is undefined, is not
 * modelled.
 */
module Semantics {
  import opened OpCodes

  /** Capacities of instruction memory and data memory. */
  const IAddrSize := 1024
  const DAddrSize := 1024

  /** The result tag of one handler (`opState`). */
  datatype Status = Okay | IMemErr | DMemErr | DivideZeroErr | NoInsErr

  /**
   * The whole machine: register file, instruction memory, data memory, and
   * the integers still to be read by IN and already written by OUT.
   */
  datatype State = State(regs: seq<int>, imem: seq<Instr>, dmem: seq<int>,
                         input: seq<int>, output: seq<int>)

  /** Sizes are fixed, and every stored instruction passed the loader's checks. */
  predicate Valid(s: State) {
    |s.regs| == NumRegs && |s.imem| == IAddrSize && |s.dmem| == DAddrSize &&
    forall k :: 0 <= k < |s.imem| ==> WellFormed(s.imem[k])
  }

  function Abs(x: int): nat {
    if x < 0 then -x else x
  }

  /**
   * C's integer `/`: the quotient truncated toward zero. The remainder is
   * smaller than the divisor in magnitude and has the sign of the dividend,
   * which is what tells it apart from Dafny's Euclidean `/`.
   */
  function CDiv(a: int, b: int): (q: int)
    requires b != 0
    ensures Abs(a - q * b) < Abs(b)
    ensures a - q * b == 0 || (a - q * b < 0 <==> a < 0)
  {
    var m := Abs(a) / Abs(b);
    TruncatedRemainder(a, b, m);
    if (a < 0) == (b < 0) then m else -m
  }

  /** With m = |a| / |b|, the remainder of the signed quotient is +-(|a| % |b|), signed like a. */
  lemma TruncatedRemainder(a: int, b: int, m: int)
    requires b != 0 && m == Abs(a) / Abs(b)
    ensures var q := if (a < 0) == (b < 0) then m else -m;
      a - q * b == if a < 0 then -(Abs(a) % Abs(b)) else Abs(a) % Abs(b)
  {
    var bb: int := Abs(b);
    assert Abs(a) == m * bb + Abs(a) % bb;
    if b > 0 {
      assert b == bb;
      assert (-m) * b == -(m * bb);
    } else {
      assert b == -bb;
      assert m * b == -(m * bb);
      assert (-m) * b == m * bb;
    }
  }

  /** The effective address `regs[s] + t` of a memory, LDA or branch instruction. */
  function Addr(s: State, i: Instr): int
    requires |s.regs| == NumRegs && IsReg(i.arg2)
  {
    s.regs[i.arg2] + i.arg3
  }

  function SetReg(s: State, r: int, v: int): State
    requires 0 <= r < |s.regs|
  {
    s.(regs := s.regs[r := v])
  }

  /** The comparison with 0 each branch tests on `regs[r]`. */
  predicate Taken(op: Op, v: int) {
    match op
    case JLT => v < 0
    case JLE => v <= 0
    case JGT => v > 0
    case JGE => v >= 0
    case JEQ => v == 0
    case JNE => v != 0
    case _ => false
  }

  datatype Outcome = Outcome(status: Status, state: State)

  /**
   * `ins_exec` and the handlers: the result tag and the new state. A handler
   * that faults has changed nothing, and no handler touches instruction memory.
   */
  function Exec(s: State, i: Instr): (o: Outcome)
    requires Valid(s) && WellFormed(i)
    ensures Valid(o.state) && o.state.imem == s.imem
    ensures o.status != Okay ==> o.state == s
  {
    var r := i.arg1;
    match i.op
    case IN =>
      if |s.input| == 0 then Outcome(Okay, s)
      else Outcome(Okay, SetReg(s, r, s.input[0]).(input := s.input[1..]))
    case OUT => Outcome(Okay, s.(output := s.output + [s.regs[r]]))
    case ADD => Outcome(Okay, SetReg(s, r, s.regs[i.arg2] + s.regs[i.arg3]))
    case SUB => Outcome(Okay, SetReg(s, r, s.regs[i.arg2] - s.regs[i.arg3]))
    case MUL => Outcome(Okay, SetReg(s, r, s.regs[i.arg2] * s.regs[i.arg3]))
    case DIV =>
      if s.regs[i.arg3] == 0 then Outcome(DivideZeroErr, s)
      else Outcome(Okay, SetReg(s, r, CDiv(s.regs[i.arg2], s.regs[i.arg3])))
    case LD =>
      var a := Addr(s, i);
      if a < 0 || a >= DAddrSize then Outcome(DMemErr, s)
      else Outcome(Okay, SetReg(s, r, s.dmem[a]))
    case ST =>
      var a := Addr(s, i);
      if a < 0 || a >= DAddrSize then Outcome(DMemErr, s)
      else Outcome(Okay, s.(dmem := s.dmem[a := s.regs[r]]))
    case LDA =>
      var a := Addr(s, i);
      if a < 0 || a >= DAddrSize then Outcome(DMemErr, s)
      else Outcome(Okay, SetReg(s, r, a))
    case LDC => Outcome(Okay, SetReg(s, r, i.arg3))
    case JLT | JLE | JGT | JGE | JEQ | JNE =>
      var a := Addr(s, i);
      if a < 0 || a >= IAddrSize then Outcome(IMemErr, s)
      else if Taken(i.op, s.regs[r]) then Outcome(Okay, SetReg(s, PC, a))
      else Outcome(Okay, s)
    case HALT | RRLIM | RMLIM | RALIM => Outcome(NoInsErr, s)
  }

  /** s' differs from s at most in register r. */
  predicate OnlyReg(s: State, s': State, r: int) {
    |s'.regs| == |s.regs| && s'.imem == s.imem && s'.dmem == s.dmem &&
    s'.input == s.input && s'.output == s.output &&
    forall k :: 0 <= k < |s.regs| && k != r ==> s'.regs[k] == s.regs[k]
  }

  /** ADD, SUB and MUL store `regs[s] op regs[t]`, LDC stores `t`; nothing else changes. */
  lemma ArithSpec(s: State, i: Instr)
    requires Valid(s) && WellFormed(i) && i.op in {ADD, SUB, MUL, LDC}
    ensures var o := Exec(s, i);
      o.status == Okay && OnlyReg(s, o.state, i.arg1) &&
      o.state.regs[i.arg1] == match i.op
        case ADD => s.regs[i.arg2] + s.regs[i.arg3]
        case SUB => s.regs[i.arg2] - s.regs[i.arg3]
        case MUL => s.regs[i.arg2] * s.regs[i.arg3]
        case _ => i.arg3
  {
  }

  /** DIV faults exactly on a zero divisor; otherwise only `regs[r]` changes, to the truncated quotient. */
  lemma DivSpec(s: State, i: Instr)
    requires Valid(s) && WellFormed(i) && i.op == DIV
    ensures var o := Exec(s, i);
      (o.status == DivideZeroErr <==> s.regs[i.arg3] == 0) &&
      (o.status == DivideZeroErr ==> o.state == s) &&
      (s.regs[i.arg3] != 0 ==>
        o.status == Okay && OnlyReg(s, o.state, i.arg1) &&
        o.state.regs[i.arg1] == CDiv(s.regs[i.arg2], s.regs[i.arg3]))
  {
  }

  /** LD faults exactly on an address outside data memory; otherwise only `regs[r]` changes. */
  lemma LoadSpec(s: State, i: Instr)
    requires Valid(s) && WellFormed(i) && i.op == LD
    ensures var o := Exec(s, i); var a := Addr(s, i);
      (o.status == DMemErr <==> !(0 <= a < DAddrSize)) &&
      (o.status == DMemErr ==> o.state == s) &&
      (0 <= a < DAddrSize ==>
        o.status == Okay && OnlyReg(s, o.state, i.arg1) && o.state.regs[i.arg1] == s.dmem[a])
  {
  }

  /** ST faults exactly on an address outside data memory; otherwise only that cell changes. */
  lemma StoreSpec(s: State, i: Instr)
    requires Valid(s) && WellFormed(i) && i.op == ST
    ensures var o := Exec(s, i); var a := Addr(s, i);
      (o.status == DMemErr <==> !(0 <= a < DAddrSize)) &&
      (o.status == DMemErr ==> o.state == s) &&
      (0 <= a < DAddrSize ==>
        o.status == Okay && o.state.regs == s.regs && o.state.imem == s.imem &&
        o.state.input == s.input && o.state.output == s.output &&
        |o.state.dmem| == |s.dmem| && o.state.dmem[a] == s.regs[i.arg1] &&
        forall k :: 0 <= k < |s.dmem| && k != a ==> o.state.dmem[k] == s.dmem[k])
  {
  }

  /** A value stored by ST at address a is what a later LD from a reads back. */
  lemma StoreLoadRoundTrip(s: State, st: Instr, ld: Instr)
    requires Valid(s) && WellFormed(st) && WellFormed(ld) && st.op == ST && ld.op == LD
    requires 0 <= Addr(s, st) < DAddrSize && Addr(s, ld) == Addr(s, st)
    ensures var s1 := Exec(s, st).state; var o := Exec(s1, ld);
      o.status == Okay && o.state.regs[ld.arg1] == s.regs[st.arg1]
  {
    StoreSpec(s, st);
    var s1 := Exec(s, st).state;
    LoadSpec(s1, ld);
  }

  /** LDA stores the address `regs[s] + t` itself, but faults when it lies outside data memory. */
  lemma LoadAddressSpec(s: State, i: Instr)
    requires Valid(s) && WellFormed(i) && i.op == LDA
    ensures var o := Exec(s, i); var a := Addr(s, i);
      (o.status == DMemErr <==> !(0 <= a < DAddrSize)) &&
      (o.status == DMemErr ==> o.state == s) &&
      (0 <= a < DAddrSize ==> o.status == Okay && OnlyReg(s, o.state, i.arg1) && o.state.regs[i.arg1] == a)
  {
  }

  /**
   * A branch faults exactly when its target lies outside instruction memory,
   * taken or not; otherwise it sets the PC to the target exactly when its
   * condition holds, and changes nothing else.
   */
  lemma BranchSpec(s: State, i: Instr)
    requires Valid(s) && WellFormed(i) && IsBranch(i.op)
    ensures var o := Exec(s, i); var a := Addr(s, i);
      (o.status == IMemErr <==> !(0 <= a < IAddrSize)) &&
      (o.status == IMemErr ==> o.state == s) &&
      (0 <= a < IAddrSize ==>
        o.status == Okay && OnlyReg(s, o.state, PC) &&
        o.state.regs[PC] == if Taken(i.op, s.regs[i.arg1]) then a else s.regs[PC])
  {
  }

  /** IN consumes the next input into `regs[r]` (nothing at end of input); OUT appends `regs[r]` to the output. */
  lemma InOutSpec(s: State, i: Instr)
    requires Valid(s) && WellFormed(i) && i.op in {IN, OUT}
    ensures var o := Exec(s, i);
      o.status == Okay && o.state.dmem == s.dmem &&
      (i.op == OUT ==> o.state == s.(output := s.output + [s.regs[i.arg1]])) &&
      (i.op == IN && |s.input| > 0 ==>
        o.state.input == s.input[1..] && o.state.output == s.output &&
        OnlyReg(s.(input := s.input[1..]), o.state, i.arg1) && o.state.regs[i.arg1] == s.input[0]) &&
      (i.op == IN && |s.input| == 0 ==> o.state == s)
  {
  }

  /** The opcodes without a handler, HALT and the three limit markers, yield NoInsErr and change nothing. */
  lemma NoHandlerSpec(s: State, i: Instr)
    requires Valid(s) && WellFormed(i)
    ensures Exec(s, i).status == NoInsErr <==> i.op in {HALT, RRLIM, RMLIM, RALIM}
    ensures Exec(s, i).status == NoInsErr ==> Exec(s, i).state == s
  {
  }

  /** Why a run ended: HALT fetched, a handler fault, or a PC outside instruction memory at fetch. */
  datatype Stop = Halted | Faulted(status: Status) | BadFetch

  datatype StepResult = Next(state: State) | Stopped(stop: Stop, state: State)

  /**
   * One iteration of `vm_run`: fetch at the PC, stop on HALT, execute, stop
   * on a fault, and advance the PC by one only after an opcode below JLT.
   * The source fetches without a bounds check; here a PC outside instruction
   * memory stops the machine with BadFetch.
   */
  function Step(s: State): (r: StepResult)
    requires Valid(s)
    ensures Valid(r.state)
  {
    var pc := s.regs[PC];
    if pc < 0 || pc >= IAddrSize then Stopped(BadFetch, s)
    else
      var i := s.imem[pc];
      if i.op == HALT then Stopped(Halted, s)
      else
        var o := Exec(s, i);
        if o.status != Okay then Stopped(Faulted(o.status), o.state)
        else if AdvancesPc(i.op) then Next(SetReg(o.state, PC, o.state.regs[PC] + 1))
        else Next(o.state)
  }

  /** The fetch/execute cycle's outcome cases and its PC discipline. */
  lemma StepSpec(s: State)
    requires Valid(s)
    ensures var pc := s.regs[PC];
      (Step(s) == Stopped(BadFetch, s) <==> !(0 <= pc < IAddrSize)) &&
      (0 <= pc < IAddrSize ==>
        var i := s.imem[pc]; var o := Exec(s, i);
        (Step(s) == Stopped(Halted, s) <==> i.op == HALT) &&
        (i.op != HALT && o.status != Okay ==> Step(s) == Stopped(Faulted(o.status), s)) &&
        (i.op != HALT && o.status == Okay ==>
          Step(s).Next? && OnlyReg(o.state, Step(s).state, PC) &&
          Step(s).state.regs[PC] == o.state.regs[PC] + (if AdvancesPc(i.op) then 1 else 0)))
  {
  }

  /**
   * A branch whose target is valid but whose condition is false leaves the
   * whole state unchanged, so the same branch is fetched again.
   */
  lemma NotTakenBranchRepeats(s: State)
    requires Valid(s) && 0 <= s.regs[PC] < IAddrSize
    requires var i := s.imem[s.regs[PC]];
      IsBranch(i.op) && 0 <= Addr(s, i) < IAddrSize && !Taken(i.op, s.regs[i.arg1])
    ensures Step(s) == Next(s)
  {
    var i := s.imem[s.regs[PC]];
    BranchSpec(s, i);
    assert Exec(s, i).state == s;
  }

  /** Writing the PC with a non-branch instruction (e.g. `LDC 7 0 k`) is still followed by the increment. */
  lemma PcWriteThenIncrement(s: State)
    requires Valid(s) && 0 <= s.regs[PC] < IAddrSize
    requires var i := s.imem[s.regs[PC]]; i.op == LDC && i.arg1 == PC
    ensures Step(s).Next? && Step(s).state.regs[PC] == s.imem[s.regs[PC]].arg3 + 1
  {
  }

  datatype RunResult = Finished(stop: Stop, state: State) | OutOfFuel(state: State)

  /** `vm_run`, cut off after `fuel` fetches since a program need not terminate. */
  function Run(s: State, fuel: nat): (r: RunResult)
    requires Valid(s)
    ensures Valid(r.state)
    decreases fuel
  {
    if fuel == 0 then OutOfFuel(s)
    else
      match Step(s)
      case Stopped(stop, s') => Finished(stop, s')
      case Next(s') => Run(s', fuel - 1)
  }

  /** One step of a run with budget left. */
  lemma RunUnfold(s: State, fuel: nat)
    requires Valid(s) && fuel > 0
    ensures Run(s, fuel) ==
      if Step(s).Next? then Run(Step(s).state, fuel - 1) else Finished(Step(s).stop, Step(s).state)
  {
  }

  /** A not-taken branch never halts and never faults: every budget runs out. */
  lemma {:induction false} NotTakenBranchSpins(s: State, n: nat)
    requires Valid(s) && 0 <= s.regs[PC] < IAddrSize
    requires var i := s.imem[s.regs[PC]];
      IsBranch(i.op) && 0 <= Addr(s, i) < IAddrSize && !Taken(i.op, s.regs[i.arg1])
    ensures Run(s, n) == OutOfFuel(s)
    decreases n
  {
    if n > 0 {
      NotTakenBranchRepeats(s);
      NotTakenBranchSpins(s, n - 1);
    }
  }

  /** A fault in the middle of a run leaves the state the faulting handler saw. */
  lemma {:induction false} RunFaultNoPartialEffect(s: State, n: nat)
    requires Valid(s) && n > 0 && Step(s).Stopped? && Step(s).stop.Faulted?
    ensures Run(s, n) == Finished(Step(s).stop, s)
  {
    StepSpec(s);
  }

  /**
   * The machine after `vm_setup` and a successful load of `prog`: registers
   * and data memory zero, the program at addresses 0.., HALT 0 0 0 after it.
   */
  function Boot(prog: seq<Instr>, input: seq<int>): (s: State)
    requires |prog| <= IAddrSize && forall k :: 0 <= k < |prog| ==> WellFormed(prog[k])
    ensures Valid(s) && s.regs[PC] == 0 && s.input == input && s.output == []
    ensures forall k :: 0 <= k < IAddrSize ==> s.imem[k] == if k < |prog| then prog[k] else HaltInstr
  {
    State(seq(NumRegs, _ => 0), prog + seq(IAddrSize - |prog|, _ => HaltInstr),
          seq(DAddrSize, _ => 0), input, [])
  }
}
