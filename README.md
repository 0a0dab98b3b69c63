# opcodeVM execution engine in Dafny

This project models the execution engine of `opcodeVM.c`, a small register virtual machine. The machine has:

- eight integer registers, where register 7 is the program counter;
- 1024 instruction slots, each holding an opcode and three integer operands;
- 1024 data cells.

A program is a list of text records of the form `MNEMONIC r s t`. The loader looks each mnemonic up in the linear table `opCodeTab`, checks the operands and stores the instruction at the next address. `vm_run` then fetches the instruction at the PC. It stops on HALT. Otherwise `ins_exec` dispatches the instruction to its handler. The machine dies on any fault. After a successful instruction, the PC is incremented only if the opcode's tag is below `opJLT`.

Modules:

- `Wrappers`: `Option` and `Result`.
- `OpCodes`:
  - the opcode enumeration and its tags;
  - `opCodeTab` with its lookup (`Lookup`, and the loop `MapIns`);
  - the loader's per-record decision (`Decode`) and its whole-program form (`DecodeAll`).
- `Semantics`: the reference semantics as pure functions over a `State` value.
  - `Exec` covers `ins_exec` and all handlers.
  - `Step` is one iteration of `vm_run`.
  - `Run` is `vm_run` with a fetch budget.
  - `Boot` is the machine after setup and a load.
- `Engine`: the class `Machine`, the source's three global arrays updated in place.
  - It has one method per handler, the dispatcher `InsExec`, `Setup`, the loader's storing loop `Load`, one loop iteration `Cycle`, and `Run`.
  - The handler methods, `Setup`, `Load` and `CheckRecord` state their effect on the arrays directly, through `old(...)`, or through `OpCodes.Decode` and `DecodeAll`. The constructor, `InsExec`, `Cycle` and `Run` are proved equal to `Boot`, `Exec`, `Step` and `Run` of `Semantics` through the ghost snapshot `St()`.
  - `Start` runs setup and a load on a fresh machine and is proved to reach `Boot` of the loaded program.
- `Programs`: whole programs taken from text to the end of their run.

Choices:

- Integers are mathematical. The source's `int` overflow is undefined behaviour in C, and the model does not reproduce it.
- `DIV` uses C's truncating division (`CDiv`), not Dafny's Euclidean `/`.
- `scanf` and `printf` in IN and OUT become an input sequence that IN consumes and an output sequence that OUT appends to.
- `die` becomes an error value: `LoadError` at load time, and `Stop.Faulted(status)` at run time.
- The fetch `imem[regs[PC_REG]]` is unchecked in the source. The model makes it an explicit stop, `BadFetch`.
- A not-taken branch does not advance the PC, exactly as written at opcodeVM.c:188-189. The same branch is therefore fetched again and again.

## Model

| member | source | states |
|---|---|---|
| OpCodes.TagOfAllOps | opcodeVM.c:15-38 | the opcode at position k of the enumeration has tag k |
| OpCodes.AllOpsAtTag | opcodeVM.c:15-38 | every opcode sits in the enumeration at its own tag, so tags and opcodes correspond one to one |
| OpCodes.IsRegRegBelowRRLIM | opcodeVM.c:164 | the register-register class (third operand checked at load) is exactly the opcodes whose tag is below `opRRLIM` |
| OpCodes.AdvancesPcBelowJLT | opcodeVM.c:188-189 | the opcodes after which the PC is incremented are exactly those whose tag is below `opJLT` |
| OpCodes.FindFrom | opcodeVM.c:132-133 | a linear search result found from `from` lies between `from` and the end of the table |
| OpCodes.FindFromSpec | opcodeVM.c:132-133 | the search returns the first index at or after `from` whose name equals the key; it returns None exactly when no entry from there on matches |
| OpCodes.LookupSpec | opcodeVM.c:128-137 | `map_ins` yields op exactly when op's table entry is the name and no earlier entry is; it fails ("non-exist opcode") exactly when the name is not in the table |
| OpCodes.LookupQuestionMarks | opcodeVM.c:128-137 | `"???"` resolves to `opRRLIM` (tag 7), its first occurrence in the table |
| OpCodes.NamesDistinct | opcodeVM.c:47-49 | no real mnemonic occurs at an earlier index of the table |
| OpCodes.RepeatedNamesAreLimits | opcodeVM.c:47-49 | two different indices with equal names are both limit markers (the `"???"` entries at tags 7, 10 and 19) |
| OpCodes.LookupName | opcodeVM.c:128-137 | every real opcode's own name maps back to that opcode; no name ever yields `opRMLIM` or `opRALIM` |
| OpCodes.MapIns | opcodeVM.c:128-137 | the search loop returns the same result as the table lookup `Lookup` |
| OpCodes.Decode | opcodeVM.c:147-166 | a record is accepted exactly when the mnemonic is known, both first operands are registers, and, for tags below `opRRLIM`, the third is too; the accepted instruction carries the record's operands unchanged; an unknown mnemonic is the error NoSuchOpcode exactly when the lookup fails, and a known one gets BadArg1, BadArg2 or BadArg3 exactly when its first failing check, in the source's order, is on that operand |
| OpCodes.DecodeName | opcodeVM.c:147-166 | a record spelling a real opcode's own name with valid operands decodes to that instruction |
| OpCodes.DecodeAll | opcodeVM.c:139-175 | a program loads exactly when every record decodes; the loaded code has one instruction per record, in order, each the decoding of its record |
| OpCodes.DecodeAllOk | opcodeVM.c:139-175 | when every record decodes to the matching instruction of `code`, the program loads as `code` |
| OpCodes.DecodeAllFirstError | opcodeVM.c:145-166 | the load error is the error of the first failing record, as `die` stops at that record |
| Semantics.CDiv | opcodeVM.c:274 | the quotient truncates toward zero: the remainder is smaller than the divisor in magnitude and is zero or has the dividend's sign |
| Semantics.Exec | opcodeVM.c:196-416 | every handler keeps the machine well formed and never touches instruction memory; a handler that faults has changed nothing |
| Semantics.ArithSpec | opcodeVM.c:234-265 | ADD, SUB and MUL store `regs[s] op regs[t]` in `regs[r]`, and LDC (opcodeVM.c:318-326) stores `t`; all return Okay and change no other register, memory or stream |
| Semantics.DivSpec | opcodeVM.c:267-277 | DIV faults with DivideZeroErr exactly when `regs[t]` is 0 and then changes nothing; otherwise only `regs[r]` changes, to the truncated quotient |
| Semantics.LoadSpec | opcodeVM.c:279-290 | LD faults with DMemErr exactly when `regs[s]+t` is outside data memory, changing nothing; otherwise only `regs[r]` changes, to that cell |
| Semantics.StoreSpec | opcodeVM.c:292-303 | ST faults with DMemErr exactly when `regs[s]+t` is outside data memory, changing nothing; otherwise only that data cell changes, to `regs[r]` |
| Semantics.StoreLoadRoundTrip | opcodeVM.c:279-303 | a value stored by ST at an address is what a following LD from that address reads into its register |
| Semantics.LoadAddressSpec | opcodeVM.c:305-316 | LDA faults with DMemErr exactly when `regs[s]+t` is outside data memory, changing nothing; otherwise only `regs[r]` changes, to that address |
| Semantics.BranchSpec | opcodeVM.c:328-416 | every conditional branch faults with IMemErr exactly when `regs[s]+t` is outside instruction memory, taken or not; otherwise it sets the PC to the target exactly when its comparison of `regs[r]` with 0 holds, and changes nothing else |
| Semantics.InOutSpec | opcodeVM.c:221-233 | IN moves the next input into `regs[r]` and consumes it, changing nothing else, and leaves everything unchanged at end of input; OUT appends `regs[r]` to the output and changes nothing else |
| Semantics.NoHandlerSpec | opcodeVM.c:196-219 | dispatch yields NoInsErr exactly for HALT and the three limit tags, which have no handler, and then changes nothing |
| Semantics.Step | opcodeVM.c:177-194 | one iteration keeps the machine well formed |
| Semantics.StepSpec | opcodeVM.c:181-190 | a PC outside instruction memory stops with BadFetch; fetching HALT stops with the state unchanged; a fault stops with that fault and the state unchanged; otherwise only the PC differs from the handler's result, and it is one higher exactly when the opcode advances the PC |
| Semantics.NotTakenBranchRepeats | opcodeVM.c:188-190 | a branch with a valid target and a false condition leaves the whole state unchanged, so it is fetched again |
| Semantics.PcWriteThenIncrement | opcodeVM.c:188-189 | `LDC 7 0 k` writes the PC, and the loop still increments it to k+1 |
| Semantics.Run | opcodeVM.c:177-194 | a run within the fetch budget keeps the machine well formed |
| Semantics.RunUnfold | opcodeVM.c:182-191 | proof helper that unfolds `Run` once: a run with budget left is one step followed by the rest of the run, or ends at that step's stop |
| Semantics.NotTakenBranchSpins | opcodeVM.c:182-191 | from a not-taken branch the machine neither halts nor faults: every budget runs out with the state unchanged |
| Semantics.RunFaultNoPartialEffect | opcodeVM.c:183-184 | a run whose first instruction faults ends with that fault in the state before the instruction |
| Semantics.Boot | opcodeVM.c:103-175 | after setup and a load, the PC is 0, the output is empty, and instruction slot k holds the k-th loaded instruction or HALT 0 0 0 after the program |
| Engine.Machine.constructor | opcodeVM.c:103-120 | the three memories are allocated and the machine equals the booted state of the empty program |
| Engine.Machine.Setup | opcodeVM.c:103-120 | every register is 0, every instruction slot is HALT 0 0 0, every data cell is 0 |
| Engine.Machine.Load | opcodeVM.c:139-175 | when every record decodes, instruction memory holds the decoded program at addresses 0.. and is unchanged after it; otherwise the load reports the first failing record's error |
| Engine.Machine.CheckRecord | opcodeVM.c:147-166 | the loader's checks, in the source's order, return exactly `Decode` of the record |
| Engine.Machine.InExec | opcodeVM.c:221-226 | the next input goes to `regs[r]` and is consumed; at end of input nothing changes; the result is Okay |
| Engine.Machine.OutExec | opcodeVM.c:228-233 | `regs[r]` is appended to the output; the result is Okay |
| Engine.Machine.AddExec | opcodeVM.c:234-243 | registers afterwards are the old ones with `regs[r] = regs[s] + regs[t]` |
| Engine.Machine.SubExec | opcodeVM.c:245-254 | registers afterwards are the old ones with `regs[r] = regs[s] - regs[t]` |
| Engine.Machine.MulExec | opcodeVM.c:256-265 | registers afterwards are the old ones with `regs[r] = regs[s] * regs[t]` |
| Engine.Machine.DivExec | opcodeVM.c:267-277 | a zero divisor returns DivideZeroErr with registers unchanged; otherwise only `regs[r]` changes, to the truncated quotient |
| Engine.Machine.LdExec | opcodeVM.c:279-290 | an address outside data memory returns DMemErr with registers unchanged; otherwise only `regs[r]` changes, to the data cell |
| Engine.Machine.StExec | opcodeVM.c:292-303 | an address outside data memory returns DMemErr with data memory unchanged; otherwise only that cell changes, to `regs[r]` |
| Engine.Machine.LdaExec | opcodeVM.c:305-316 | an address outside data memory returns DMemErr with registers unchanged; otherwise only `regs[r]` changes, to the address |
| Engine.Machine.LdcExec | opcodeVM.c:318-326 | only `regs[r]` changes, to `t` |
| Engine.Machine.JltExec | opcodeVM.c:328-341 | an out-of-range target returns IMemErr with registers unchanged; otherwise the PC becomes the target exactly when `regs[r] < 0` |
| Engine.Machine.JleExec | opcodeVM.c:343-356 | as JLT, with the condition `regs[r] <= 0` |
| Engine.Machine.JgtExec | opcodeVM.c:358-371 | as JLT, with the condition `regs[r] > 0` |
| Engine.Machine.JgeExec | opcodeVM.c:373-386 | as JLT, with the condition `regs[r] >= 0` |
| Engine.Machine.JeqExec | opcodeVM.c:388-401 | as JLT, with the condition `regs[r] == 0` |
| Engine.Machine.JneExec | opcodeVM.c:403-416 | as JLT, with the condition `regs[r] != 0` |
| Engine.Machine.InsExec | opcodeVM.c:196-219 | the dispatcher's result and new machine state are exactly `Exec` of the old state |
| Engine.Machine.Cycle | opcodeVM.c:181-190 | one pass of the loop is exactly `Step` of the old state |
| Engine.Machine.Run | opcodeVM.c:177-194 | the loop's outcome and final machine are exactly `Run` of the old state with the same budget |
| Engine.Start | opcodeVM.c:436-437 | setup followed by a load on a fresh machine yields exactly `Boot` of the decoded program when every record decodes, and otherwise reports the first failing record's error |
| Programs.HaltOnly | opcodeVM.c:139-194 | the one-line program HALT 0 0 0 loads and stops at the first fetch with the booted state unchanged |
| Programs.SumProgramDecodes | opcodeVM.c:139-175 | the text LDC 0 0 5, LDC 1 0 3, ADD 2 0 1, OUT 2 0 0, HALT 0 0 0 loads as the corresponding instructions |
| Programs.SumProgramRuns | opcodeVM.c:177-194 | that program halts after five fetches with output [8], registers 0, 1 and 2 holding 5, 3 and 8, the others 0, and the PC at the HALT (4) |
| Programs.DivByZeroProgramDecodes | opcodeVM.c:139-175 | the text LDC 0 0 0, DIV 1 0 0, HALT 0 0 0 loads as the corresponding instructions |
| Programs.DivByZeroProgramRuns | opcodeVM.c:182-184 | that program dies with DivideZeroErr at the DIV, with register 1 unchanged and the PC at 1 |
| Programs.QuestionMarksProgram | opcodeVM.c:196-219 | `??? 0 0 t` loads as RRLIM for any t, and running it dies with NoInsErr and the state unchanged |
| Programs.NotTakenBranchProgram | opcodeVM.c:182-191 | `JGT 0 0 5` before a HALT never reaches the HALT: every budget runs out with the state unchanged |
| Programs.PcOutOfRangeProgram | opcodeVM.c:181-190 | `LDC 7 0 5000` loads, writes the PC, is followed by the increment, and the next fetch is outside instruction memory (BadFetch with the PC at 5001) |

## Left out

- File and stream I/O is not modelled. This covers `fopen`, the `fscanf` token reading and the `printf` echo in `vm_load`, `close(ifile)`, `main`'s argument handling with its `strcpy` into a 20-byte buffer, and `system("PAUSE")`. The program text reaches the model as a sequence of records that are already split into mnemonic and three integers.
- The formatting done by `scanf` and `printf` inside IN and OUT is not modelled. Input and output are sequences of integers, and malformed input is not represented.
- IN at end of input leaves the registers unchanged. This is what `scanf` does on end of file; the model does not see its EOF return value.
- `die` and `exit(-1)` are not process termination in the model. A failed load returns `Some(error)`, and a run fault ends the run with `Faulted(status)` and the state the faulting handler left unchanged.
- C signed `int` overflow in `+`, `-`, `*` and in `regs[s]+t`, and `INT_MIN / -1`, are undefined behaviour in the source. They are not reproduced, because registers are mathematical integers.
- The `opCodeTab[opRALIM+1]` read in `map_ins` (opcodeVM.c:132) goes out of bounds for an unknown mnemonic. The model reads it as "not in the table", which is the "non-exist opcode" failure.
- Engine.Machine.Load: requires at most 1024 records. The source keeps storing past the end of `imem` for a longer program (opcodeVM.c:172), which is undefined behaviour.
- Engine.Machine.Load: says nothing of `imem` when a record fails. On a failing record the source dies after writing none of the slot for an unknown mnemonic, `iop` for a bad first operand, `iop` and `iarg1` for a bad second operand, or `iop`, `iarg1` and `iarg2` for a bad third operand. The process ends there, so the partial slot is never observed.
- The unchecked fetch `imem[regs[PC_REG]]` (opcodeVM.c:181, 190) reads outside the array when the PC leaves [0, 1024). The model stops such a run with `BadFetch` instead. The fetch can be reached with a PC outside instruction memory, because a non-branch instruction may write the PC (`PcOutOfRangeProgram`), or the PC may step past the last slot.
- `vm_run` may not terminate, so `Run` takes a budget of fetches. Running out of budget is `OutOfFuel`, which the source does not have.
- The non-taken branch is kept exactly as written: the PC is not advanced and the branch spins. No corrected variant with a fall-through is modelled: the model follows opcodeVM.c:188-189 as written.
- LDA bounds-checks `regs[s]+t` against the data memory size and faults with DMemErr, as the code at opcodeVM.c:311-312 does, although the comment at opcodeVM.c:29 mentions no check.
- The `DEBUG` trace in `vm_load`, the `opStateTab` message strings and the fault messages `die` prints are output text only, and are not modelled.
