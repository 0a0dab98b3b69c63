/**
 * The instruction set of the register machine: the opcode enumeration with
 * its numeric tags, the mnemonic table, the lookup `map_ins` performs, the
 * instruction record, and the operand checks the loader applies to every
 * record before storing it.
 */
module OpCodes {
  import opened Wrappers

  /** Number of registers; register PC is the program counter. */
  const NumRegs := 8
  const PC := 7

  /**
   * The opcodes in the order of the C enumeration. RRLIM, RMLIM and RALIM
   * are not instructions: they mark the ends of the three addressing-mode
   * classes and have no handler.
   */
  datatype Op =
    | HALT | IN | OUT | ADD | SUB | MUL | DIV | RRLIM
    | LD | ST | RMLIM
    | LDA | LDC | JLT | JLE | JGT | JGE | JEQ | JNE | RALIM

  /** The opcodes listed by tag: AllOps[k] is the opcode whose enum value is k. */
  const AllOps: seq<Op> :=
    [HALT, IN, OUT, ADD, SUB, MUL, DIV, RRLIM,
     LD, ST, RMLIM,
     LDA, LDC, JLT, JLE, JGT, JGE, JEQ, JNE, RALIM]

  /** The numeric value of an opcode in the C enumeration. */
  function Tag(op: Op): (t: nat)
    ensures t < |AllOps|
  {
    match op
    case HALT => 0  case IN => 1  case OUT => 2  case ADD => 3
    case SUB => 4   case MUL => 5 case DIV => 6  case RRLIM => 7
    case LD => 8    case ST => 9  case RMLIM => 10
    case LDA => 11  case LDC => 12 case JLT => 13 case JLE => 14
    case JGT => 15  case JGE => 16 case JEQ => 17 case JNE => 18
    case RALIM => 19
  }

  /** Tags are exactly positions in AllOps, so distinct opcodes have distinct tags. */
  lemma TagOfAllOps(k: nat)
    requires k < |AllOps|
    ensures Tag(AllOps[k]) == k
  {
  }

  lemma AllOpsAtTag(op: Op)
    ensures AllOps[Tag(op)] == op
  {
  }

  /** The mnemonic table, indexed by tag; "???" stands at the three limit tags. */
  const OpCodeTab: seq<string> :=
    ["HALT", "IN", "OUT", "ADD", "SUB", "MUL", "DIV", "???",
     "LD", "ST", "???",
     "LDA", "LDC", "JLT", "JLE", "JGT", "JGE", "JEQ", "JNE", "???"]

  /** Register-register class: the third operand is a register index. */
  predicate IsRegReg(op: Op) {
    op.HALT? || op.IN? || op.OUT? || op.ADD? || op.SUB? || op.MUL? || op.DIV?
  }

  /** The six conditional branches. */
  predicate IsBranch(op: Op) {
    op.JLT? || op.JLE? || op.JGT? || op.JGE? || op.JEQ? || op.JNE?
  }

  /** The loop advances the PC after every opcode except the branches and RALIM. */
  predicate AdvancesPc(op: Op) {
    !IsBranch(op) && op != RALIM
  }

  /** The loader's class test is the source's `iop < opRRLIM`. */
  lemma IsRegRegBelowRRLIM(op: Op)
    ensures IsRegReg(op) <==> Tag(op) < Tag(RRLIM)
  {
  }

  /** The loop's advance test is the source's `iop < opJLT`. */
  lemma AdvancesPcBelowJLT(op: Op)
    ensures AdvancesPc(op) <==> Tag(op) < Tag(JLT)
  {
  }

  /** First index k >= from of `tab` that holds `name`, if any. */
  function FindFrom(tab: seq<string>, name: string, from: nat): (r: Option<nat>)
    requires from <= |tab|
    ensures r.Some? ==> from <= r.value < |tab|
    decreases |tab| - from
  {
    if from == |tab| then None
    else if tab[from] == name then Some(from)
    else FindFrom(tab, name, from + 1)
  }

  lemma {:induction false} FindFromSpec(tab: seq<string>, name: string, from: nat)
    requires from <= |tab|
    ensures FindFrom(tab, name, from).Some? ==>
      var k := FindFrom(tab, name, from).value;
      tab[k] == name && forall j :: from <= j < k ==> tab[j] != name
    ensures FindFrom(tab, name, from).None? <==> forall j :: from <= j < |tab| ==> tab[j] != name
    decreases |tab| - from
  {
    if from < |tab| && tab[from] != name {
      FindFromSpec(tab, name, from + 1);
    }
  }

  /** The opcode `map_ins` yields for a mnemonic, or None where it dies. */
  function Lookup(name: string): Option<Op> {
    match FindFrom(OpCodeTab, name, 0)
    case None => None
    case Some(k) => Some(AllOps[k])
  }

  /**
   * Lookup returns the opcode at the FIRST table index whose name equals the
   * mnemonic exactly, and fails exactly when no entry matches.
   */
  lemma LookupSpec(name: string, op: Op)
    ensures Lookup(name) == Some(op) <==>
      OpCodeTab[Tag(op)] == name && forall j :: 0 <= j < Tag(op) ==> OpCodeTab[j] != name
    ensures Lookup(name).None? <==> name !in OpCodeTab
  {
    FindFromSpec(OpCodeTab, name, 0);
    if Lookup(name).Some? {
      TagOfAllOps(FindFrom(OpCodeTab, name, 0).value);
    }
    if OpCodeTab[Tag(op)] == name && forall j :: 0 <= j < Tag(op) ==> OpCodeTab[j] != name {
      var k := FindFrom(OpCodeTab, name, 0).value;
      assert k == Tag(op);
      AllOpsAtTag(op);
    }
    if name in OpCodeTab {
      var j :| 0 <= j < |OpCodeTab| && OpCodeTab[j] == name;
    }
  }

  /** "???" resolves to the first limit marker, RRLIM (tag 7). */
  lemma LookupQuestionMarks()
    ensures Lookup("???") == Some(RRLIM)
  {
    LookupSpec("???", RRLIM);
  }

  /** No real mnemonic occurs at an earlier index of the table. */
  lemma NamesDistinct(j: nat, k: nat)
    requires j < k < |OpCodeTab| && k !in {Tag(RRLIM), Tag(RMLIM), Tag(RALIM)}
    ensures OpCodeTab[j] != OpCodeTab[k]
  {
  }

  /** The only repeated name is "???": two equal entries are both limit markers. */
  lemma RepeatedNamesAreLimits(j: nat, k: nat)
    requires j < |OpCodeTab| && k < |OpCodeTab| && j != k && OpCodeTab[j] == OpCodeTab[k]
    ensures j in {Tag(RRLIM), Tag(RMLIM), Tag(RALIM)} && k in {Tag(RRLIM), Tag(RMLIM), Tag(RALIM)}
  {
  }

  /** A real mnemonic with operands that pass the checks loads as that opcode. */
  lemma DecodeName(op: Op, r: int, s: int, t: int)
    requires op !in {RRLIM, RMLIM, RALIM}
    requires IsReg(r) && IsReg(s) && (IsRegReg(op) ==> IsReg(t))
    ensures Decode(Record(OpCodeTab[Tag(op)], r, s, t)) == Ok(Instr(op, r, s, t))
  {
    LookupName(op);
  }

  /** Every real opcode's own name maps back to it; RMLIM and RALIM are never produced. */
  lemma LookupName(op: Op)
    requires op !in {RRLIM, RMLIM, RALIM}
    ensures Lookup(OpCodeTab[Tag(op)]) == Some(op)
    ensures forall name :: Lookup(name) != Some(RMLIM) && Lookup(name) != Some(RALIM)
  {
    forall j | 0 <= j < Tag(op) ensures OpCodeTab[j] != OpCodeTab[Tag(op)] {
      NamesDistinct(j, Tag(op));
    }
    LookupSpec(OpCodeTab[Tag(op)], op);
    forall name ensures Lookup(name) != Some(RMLIM) && Lookup(name) != Some(RALIM) {
      LookupSpec(name, RMLIM);
      LookupSpec(name, RALIM);
    }
  }

  /**
   * The scanning loop of `map_ins`: step through the table until the name
   * matches or the table is exhausted.
   */
  method MapIns(ins: string) returns (r: Option<Op>)
    ensures r == Lookup(ins)
  {
    var op := 0;
    while op < |OpCodeTab| && OpCodeTab[op] != ins
      invariant 0 <= op <= |OpCodeTab|
      invariant FindFrom(OpCodeTab, ins, op) == FindFrom(OpCodeTab, ins, 0)
    {
      op := op + 1;
    }
    if op == |OpCodeTab| {
      return None;
    }
    return Some(AllOps[op]);
  }

  /** One instruction memory record: `{iop, iarg1, iarg2, iarg3}`. */
  datatype Instr = Instr(op: Op, arg1: int, arg2: int, arg3: int)

  const HaltInstr := Instr(HALT, 0, 0, 0)

  predicate IsReg(n: int) {
    0 <= n < NumRegs
  }

  /** What the loader guarantees of every stored record. */
  predicate WellFormed(i: Instr) {
    IsReg(i.arg1) && IsReg(i.arg2) && (IsRegReg(i.op) ==> IsReg(i.arg3))
  }

  /** The four ways the loader dies. */
  datatype LoadError = NoSuchOpcode | BadArg1 | BadArg2 | BadArg3

  /** One textual record: a mnemonic and three integer tokens. */
  datatype Record = Record(mnemonic: string, r: int, s: int, t: int)

  /**
   * The loader's decision on one record, checked in the source's order:
   * mnemonic, then first, second and third operand.
   */
  function Decode(rec: Record): (res: Result<Instr, LoadError>)
    ensures res.Ok? <==>
      Lookup(rec.mnemonic).Some? && IsReg(rec.r) && IsReg(rec.s) &&
      (IsRegReg(Lookup(rec.mnemonic).value) ==> IsReg(rec.t))
    ensures res.Ok? ==>
      res.value == Instr(Lookup(rec.mnemonic).value, rec.r, rec.s, rec.t) && WellFormed(res.value)
    ensures res == Err(NoSuchOpcode) <==> Lookup(rec.mnemonic).None?
    ensures res == Err(BadArg1) <==> Lookup(rec.mnemonic).Some? && !IsReg(rec.r)
    ensures res == Err(BadArg2) <==> Lookup(rec.mnemonic).Some? && IsReg(rec.r) && !IsReg(rec.s)
    ensures res == Err(BadArg3) <==>
      Lookup(rec.mnemonic).Some? && IsReg(rec.r) && IsReg(rec.s) &&
      IsRegReg(Lookup(rec.mnemonic).value) && !IsReg(rec.t)
  {
    match Lookup(rec.mnemonic)
    case None => Err(NoSuchOpcode)
    case Some(op) =>
      if !IsReg(rec.r) then Err(BadArg1)
      else if !IsReg(rec.s) then Err(BadArg2)
      else if IsRegReg(op) && !IsReg(rec.t) then Err(BadArg3)
      else Ok(Instr(op, rec.r, rec.s, rec.t))
  }

  /**
   * Decoding a whole program: the decoded records in order, or the error of
   * the first record that fails.
   */
  function DecodeAll(prog: seq<Record>): (res: Result<seq<Instr>, LoadError>)
    ensures res.Ok? <==> (forall k :: 0 <= k < |prog| ==> Decode(prog[k]).Ok?)
    ensures res.Ok? ==> |res.value| == |prog| &&
                        forall k :: 0 <= k < |prog| ==> res.value[k] == Decode(prog[k]).value
  {
    if prog == [] then Ok([])
    else
      var head := Decode(prog[0]);
      if head.Err? then Err(head.error)
      else
        var tail := DecodeAll(prog[1..]);
        assert forall k :: 1 <= k < |prog| ==> prog[k] == prog[1..][k - 1];
        if tail.Err? then Err(tail.error) else Ok([head.value] + tail.value)
  }

  /** A program whose every record decodes loads as those instructions, in order. */
  lemma DecodeAllOk(prog: seq<Record>, code: seq<Instr>)
    requires |prog| == |code| && forall k :: 0 <= k < |prog| ==> Decode(prog[k]) == Ok(code[k])
    ensures DecodeAll(prog) == Ok(code)
  {
    assert DecodeAll(prog).Ok?;
    assert DecodeAll(prog).value == code;
  }

  /** A failing program reports the error of its first failing record. */
  lemma {:induction false} DecodeAllFirstError(prog: seq<Record>, k: nat)
    requires k < |prog| && Decode(prog[k]).Err?
    requires forall j :: 0 <= j < k ==> Decode(prog[j]).Ok?
    ensures DecodeAll(prog) == Err(Decode(prog[k]).error)
  {
    if k > 0 {
      DecodeAllFirstError(prog[1..], k - 1);
    }
  }
}
