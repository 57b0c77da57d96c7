# The TISC virtual machine, modelled and proved in Dafny

The project models the `t81-vm` interpreter for TISC programs together with the parts of the virtual machine that
its guarantees lean on: the static validator, the loader's memory layout, the state hash, the trap summary line and
the reader of the text program format.

The interpreter is modelled twice. `Semantics` gives it as a pure function: `Step(image, config)` says what one
`step` does to the whole configuration (machine, trace, event log, payload, counters, pending preload trap, pending
write record), and `Run` and `RunToHalt` iterate it. `Interpreters.Interpreter` is the object the source has: a class
with a register array, a tag array, a memory array and the other fields of the state, whose methods update them in
place, one method per instruction family, in the order of the source. Every public method of the class is proved to
have exactly the effect of the pure function, so each theorem about `Run` is a theorem about the object. The loops of
the tensor kernels, of `trim`, of `opcode_from_string`, of `load_text_v1`, of `mix_u64` and `state_hash` and of the
payload escaping are methods with loops, each proved against a function of its inputs.

A reachable configuration (`Histories.Reached`) is what a load followed by any history leads to: steps, and register
writes by the host through `set_register`, in any order. A run is a history of steps alone. The invariants are about
all reachable configurations. A host write can break two of them, handle soundness and trace replay, and for both the
theorem says which host writes do (`Handles.HandlesHistoryIff`, `TraceReplay.FaithfulHistoryIff`). What is about
`run_to_halt`, traps and reloading is about runs.

* `Results`, `MemoryWords`, `ControlFlow`, `Variants`, `Allocators`, `TensorSteps`: what instructions answer, stated on
  the configurations before and after and along histories, without the functions that specify the interpreter.
* `CallReturn`, `Handles`, `StackDiscipline`, `HeapTiling`, `CodeSegment`, `TraceReplay`, `EventLog`, `Runs`: what
  holds throughout.
* `TrapCodes`: which trap a step raises, by cause, and what the payload says.
* `Safety`, `Overflow`, `StackOverrun`, `ForwardOnly`, `Benchmark`: what validation buys and where it falls short, when
  a step is undefined, when runs end, and what one loop costs exactly.
* `ScalarLaws`: what fixes division, trit logic and comparison.
* `TensorAlgebra`: the integer kernels as algebra.
* `HashLoop`, `StateHashing`: the hash input determines the state; one changed byte always changes the hash.
* `Lexical`, `OpcodeNames`, `TextReader`, `PayloadLine`: reading back what was written.

Integers are mathematical. Where the source converts between signed and unsigned 64-bit values (`ToSize`,
`ToSigned`, the hash words) the wrap-around is written out. `/` and `%` truncate toward zero, as in C++. Where the
behaviour of the source is undefined the step has an outcome of its own: `Undefined(RegisterIndex)` for an instruction
operand outside the register file, `Undefined(MemoryIndex)` for a stack pointer outside the memory, and
`Undefined(SignedOverflow)` for scalar arithmetic whose result does not fit 64 bits. `Overflow.ValuesStayInRange` shows
that with the last outcome set apart the mathematical integers of the model never leave the range of the C++ types.

Eight promises of the repository do not hold as they stand. Each has a lemma with a concrete input and a theorem with
the exact condition:

* Validation does not check operand b of `Neg`, `I2F`, `F2I`, `I2Frac` and `Frac2I`: `Safety.ValidationMissesOperandB`,
  and the exact condition in `Safety.RegisterFaultIff`.
* A validated program whose operands are all in range can write outside the memory: `StackOverrun` follows ten
  instructions through 8969 steps to a `Push` one word past the end (`StackOverrun.ValidatedProgramOverruns`). It
  happens exactly at a `Push` with the stack pointer beyond the memory (`Safety.MemoryFaultIff`).
* Such a program can also overflow: `Overflow.ValidatedProgramOverflows` divides the least number by minus one. The
  guard `Overflow.OverflowsOn` on the operands decides it (`Overflow.OverflowIff`), and the three together are every
  way in which a step can be undefined (`Overflow.UndefinedIff`).
* A `Pop` inside a live frame lets `StackFree` move `sp` above the stack segment:
  `StackDiscipline.UndisciplinedPopOvershoots`. Frames and stack pointer stay nested exactly when no pop does that
  (`StackDiscipline.TidyHistoryIffDisciplined`); `sp` alone leaves the segment exactly at a matching `StackFree` that
  carries it over the limit (`StackDiscipline.StepOvershootsIff`).
* The code segment is called read-only, but a `Store` may change it: `CodeSegment.StoreChangesCode`. A step changes a
  code word exactly when it stores another value into it (`CodeSegment.CodeWordsChangeIff`).
* `Inc`, `Dec` and `Pop` change a register without a trace record, and so does a host write:
  `TraceReplay.IncEscapesReplay`, `TraceReplay.HostWriteEscapesReplay`. The trace gives a register its value and tag
  throughout a history exactly when no step changes that register quietly and no host write puts anything new into it
  (`TraceReplay.FaithfulHistoryIff`; `TraceReplay.KeepsFaith` is the test before an action).
* A rejected program traps once and is then executed, because the preload trap is cleared when it is raised
  (src/vm/vm.cpp:38-40, 1039), although the repository's own architecture text asks for rejection before execution
  begins: `Safety.RejectedProgramHalts`, and for every rejected program `Safety.RejectedProgramsExecute`. Permanence
  of traps is therefore stated for configurations with no preload trap pending (`Runs.TrapsArePermanent`).
* The same bytecode is not always traced the same on a reused interpreter, because the record of the last register
  write survives a load: `Runs.LeftoverRecordShows`. It is exactly when the program is validated and not empty or no
  record was left (`Runs.ReloadEqualsFreshIff`).

The architecture text also lists nine opcode identifiers for the text format, while the reader accepts a name for
every opcode; the model follows the code.

## Model

| member | source | states |
|---|---|---|
| Interpreters.Interpreter.constructor | src/vm/vm.cpp:1055-1057 | a new interpreter has no program, no memory and empty segments |
| Runs.UnloadedAlwaysTraps | src/vm/vm.cpp:41-43 | before the first load every step is a DecodeFault that changes nothing on the machine |
| Interpreters.Interpreter.LoadProgram | src/vm/vm.cpp:18-32 | loading resets everything except the record of the last register write, which survives |
| Interpreters.Interpreter.LoadImage | src/vm/loader.cpp:27-43 | registers zeroed and tagged Int, memory zeroed and as long as the layout, sp at the stack limit, heap pointer at the heap start |
| Interpreters.Interpreter.SetRegister | src/vm/vm.cpp:809-813 | a host write reaches exactly the named register and tag and becomes the pending write record; other indices change nothing |
| Interpreters.Interpreter.SetRegisterValue | src/vm/vm.cpp:876-882 | one register and its tag are written and the triple is recorded |
| Interpreters.Interpreter.TraceOk | src/vm/vm.cpp:993-1003 | one trap-free entry with the pending write is appended |
| Interpreters.Interpreter.RaiseTrap | src/vm/vm.cpp:1005-1041 | payload with the operands of the faulting instruction, one trapping entry, preload trap forgotten |
| Interpreters.Interpreter.ExecuteArithmetic | src/vm/vm.cpp:102-154 | the whole step of the 13 arithmetic opcodes, division faults included, equals the specified outcome |
| Interpreters.Interpreter.ExecuteComparison | src/vm/vm.cpp:224-259 | the whole step of the six comparisons equals the specified outcome |
| Interpreters.Interpreter.ExecuteTritLogic | src/vm/vm.cpp:193-212 | the whole step of TAnd, TOr and TXor on clamped trits equals the specified outcome |
| Interpreters.Interpreter.ExecuteMove | src/vm/vm.cpp:155-223 | the whole step of LoadImm, Mov, Neg, TNot, the conversions, SetF and WeightsLoad equals the specified outcome |
| Interpreters.Interpreter.ExecuteAdjust | src/vm/vm.cpp:161-179 | Inc and Dec write their register without a record, Cmp writes only flags |
| Interpreters.Interpreter.ExecuteLoad | src/vm/vm.cpp:83-92 | Load reads a valid address or reports and faults; which value it finds is MemoryWords.LoadReadsLastWord |
| Interpreters.Interpreter.ExecuteStore | src/vm/vm.cpp:93-101 | Store changes one memory word and reports its segment, or reports and faults |
| Interpreters.Interpreter.ExecutePush | src/vm/vm.cpp:857-864 | Push moves sp down by one and writes there, or reports and faults |
| Interpreters.Interpreter.ExecutePop | src/vm/vm.cpp:866-874 | Pop reads at sp, moves it up by one and leaves no write record, or reports and faults |
| Interpreters.Interpreter.ExecuteJump | src/vm/vm.cpp:277-302 | taken and untaken jumps and the target check |
| Interpreters.Interpreter.ExecuteCall | src/vm/vm.cpp:303-311 | Call checks the target and pushes pc+1 |
| Interpreters.Interpreter.ExecuteRet | src/vm/vm.cpp:312-318 | Ret goes to the popped address, or faults on an empty call stack |
| Interpreters.Interpreter.ExecuteHalt | src/vm/vm.cpp:73-77 | Halt sets the halted flag and clears the payload |
| Interpreters.Interpreter.ExecuteAxRead | src/vm/vm.cpp:321-334 | AxRead reports its guard and is denied under tier 0 |
| Interpreters.Interpreter.ExecuteAxSet | src/vm/vm.cpp:335-347 | AxSet reports its guard and value and is denied under tier 0 |
| Interpreters.Interpreter.ExecuteAxVerify | src/vm/vm.cpp:348-358 | AxVerify reports its guard and is denied under tier 0 |
| Interpreters.Interpreter.ExecuteBinaryTensor | src/vm/vm.cpp:359-442 | type, handle and shape faults and the interned result of TVecAdd, TVecMul, TMatMul and TTenDot |
| Interpreters.Interpreter.ExecuteUnaryTensor | src/vm/vm.cpp:443-553 | type, handle and shape faults and the interned result of TTranspose, TRoPE and the five floating-point kernels |
| Interpreters.Interpreter.ExecuteShapeCheck | src/vm/vm.cpp:554-569 | ChkShape compares the shapes behind the two handles |
| Interpreters.Interpreter.ExecuteMake | src/vm/vm.cpp:584-697 | the making instructions append one pool entry and write its handle; what the entry answers later is Variants.OkAnswers and its five siblings |
| Interpreters.Interpreter.ExecuteInspect | src/vm/vm.cpp:615-723 | tests and unwraps read the entry behind the handle, with their type and decode faults |
| Interpreters.Interpreter.ExecuteStackAlloc | src/vm/vm.cpp:724-739 | a frame below sp is reserved and recorded, or the step faults |
| Interpreters.Interpreter.ExecuteStackFree | src/vm/vm.cpp:740-755 | the top frame is released when address and size match, or the step faults |
| Interpreters.Interpreter.ExecuteHeapAlloc | src/vm/vm.cpp:756-772 | a block at the heap pointer is reserved and recorded, or the step faults |
| Interpreters.Interpreter.ExecuteHeapFree | src/vm/vm.cpp:773-788 | the top block is released when address and size match, or the step faults; in plain terms Allocators.HeapFreeIff |
| Interpreters.Interpreter.Execute | src/vm/vm.cpp:69-791 | the switch: every opcode, unlisted ones included, ends its step with the specified outcome |
| Interpreters.Interpreter.Step | src/vm/vm.cpp:34-792 | `step` has exactly the effect and result of the pure step function wherever that is defined |
| Interpreters.Interpreter.RunToHalt | src/vm/vm.cpp:794-805 | `run_to_halt` has exactly the effect and result of the iterated step function |
| Loader.ValidateFrom | src/vm/validator.cpp:106-237 | the scan accepts if and only if every instruction passes its operand test, and rejects only with DecodeFault; what the test asks is Safety.InsnOkIff |
| Tensors.PointwiseLoop | src/vm/vm.cpp:374-377 | the loop of TVecAdd and TVecMul computes the pointwise sum or product |
| Tensors.DotLoop | src/vm/vm.cpp:433-436 | the loop of TTenDot computes the sum of products |
| Tensors.CellLoop | src/vm/vm.cpp:407-410 | the innermost loop of TMatMul computes one entry of the product |
| Tensors.MatMulRow | src/vm/vm.cpp:406-412 | one row of the output is the row of the product; what was written before stays |
| Tensors.MatMulLoop | src/vm/vm.cpp:404-413 | the triple loop computes the matrix product |
| Tensors.TransposeLoop | src/vm/vm.cpp:459-464 | the double loop computes the transposed data |
| Tensors.RotateLoop | src/vm/vm.cpp:541-546 | the in-place loop of TRoPE maps each pair (x, y) to (y, -x) |
| Results.ScalarResult | src/vm/vm.cpp:78-259 | every trap-free scalar step leaves in register a, under the right tag, the sum, difference, product, truncated quotient or remainder, comparison, nearest trit, copy or constant that its opcode names, in plain arithmetic on the registers before |
| ScalarLaws.DivisionTruncates | src/vm/vm.cpp:139-146 | a quotient and a remainder fit, the remainder smaller than the divisor and signed like the dividend, if and only if they are what Div and Mod compute |
| ScalarLaws.TritLaws | src/vm/vm.cpp:186-207 | on trits TNot turns TAnd into TOr, TAnd is the minimum, and TXor is subtraction modulo three |
| ScalarLaws.ComparisonLaws | src/vm/vm.cpp:233-254 | the six comparisons come from one total order |
| Histories.RunIsHistory | src/vm/vm.cpp:794-813 | a run of steps is a history without host writes |
| Effects.EveryInsnOrderly | src/vm/vm.cpp:69-791 | each instruction changes only its family's part of the machine, and registers only by its recorded write, except Inc, Dec and Pop |
| Effects.StepMachine | src/vm/vm.cpp:34-792 | a step changes the machine only by committing one instruction |
| Effects.StepTraced | src/vm/vm.cpp:993-1041 | a step that does anything appends one entry that names its pc, opcode, write and trap |
| MemoryWords.MemoryRemembers | src/vm/vm.cpp:93-101 | in every reachable configuration each memory word is the value of the last trap-free Store or Push that wrote it, and zero if there was none |
| MemoryWords.LoadReadsLastWord | src/vm/vm.cpp:83-92 | a trap-free Load puts the word last written at its address into register a under an Int tag and sets the flags from it |
| MemoryWords.PopReadsLastWord | src/vm/vm.cpp:866-874 | a trap-free Pop puts the word last written where sp points into register a and moves sp up by one |
| ControlFlow.FlagsRemember | src/vm/vm.cpp:55-59 | in every reachable configuration the flags show the sign of the last result, the difference of a Cmp or what a flag-setting instruction left in register a, and none before the first |
| ControlFlow.JumpsOnLastResult | src/vm/vm.cpp:277-302 | a jump goes to operand a if and only if the last result is zero, not zero, negative or positive as its opcode says; to no instruction it traps; otherwise it goes on |
| ControlFlow.CallGoesToRegister | src/vm/vm.cpp:303-311 | a call goes to the instruction whose number register a holds and leaves pc+1 on the stack, or traps when there is none |
| ControlFlow.RetGoesToTrace | src/vm/vm.cpp:312-318 | a return goes to the newest return address that the trace has not used, or traps when there is none |
| ControlFlow.OtherInsnsGoOn | src/vm/vm.cpp:69-791 | every other trap-free instruction goes on to the next one; Nop and Halt change nothing but that and the halted flag |
| CallReturn.CallStackFollowsTrace | src/vm/vm.cpp:303-318 | in every reachable configuration the call stack is the fold of the trace: trap-free calls push pc+1, trap-free returns pop |
| CallReturn.CallStackKeepsReturnAddress | src/vm/vm.cpp:308-309 | until the depth first falls back, the caller's stack with the return address on top stays at the bottom |
| CallReturn.CallReturnsToNextInsn | src/vm/vm.cpp:303-318 | whatever the host writes meanwhile, the action at which the depth first falls back is a return, to the instruction after the call, on the call stack before it |
| Variants.SomeAnswers | src/vm/vm.cpp:584-640 | whatever history follows MakeOptionSome, OptionIsSome of its handle writes 1 and OptionUnwrap writes the wrapped value under its tag |
| Variants.NoneAnswers | src/vm/vm.cpp:592-640 | whatever history follows MakeOptionNone, OptionIsSome of its handle writes 0 and OptionUnwrap is a DecodeFault |
| Variants.OkAnswers | src/vm/vm.cpp:599-679 | whatever history follows MakeResultOk, ResultIsOk of its handle writes 1, ResultUnwrapOk writes the wrapped value under its tag and ResultUnwrapErr is a DecodeFault |
| Variants.ErrAnswers | src/vm/vm.cpp:607-679 | whatever history follows MakeResultErr, ResultIsOk of its handle writes 0, ResultUnwrapOk is a DecodeFault and ResultUnwrapErr writes the wrapped value under its tag |
| Variants.BareVariantAnswers | src/vm/vm.cpp:680-723 | whatever history follows MakeEnumVariant, EnumIsVariant of its handle writes 1 for the identifier in operand b and 0 for any other, and EnumUnwrapPayload is a DecodeFault |
| Variants.VariantAnswers | src/vm/vm.cpp:687-723 | whatever history follows MakeEnumVariantPayload, EnumIsVariant of its handle writes 1 for the identifier in operand c and 0 for any other, and EnumUnwrapPayload writes the payload under its tag |
| Handles.HandlesHistoryIff | src/vm/vm.cpp:584-723 | all along a history of a loaded program handles are sound (register handles name pool entries, payload handles name earlier ones, no tensor or shape handle) if and only if every host write is of a sound value |
| Handles.ForgedHandleUnsound | src/vm/vm.cpp:809-813 | a handle forged by the host names no entry |
| Handles.HandlesStaySound | src/vm/vm.cpp:584-723 | handles are sound after every history whose host writes are sound, every run among them |
| Handles.RunsWriteNothing | src/vm/vm.cpp:794-805 | a run has no host writes, so all its handles are sound |
| Handles.PoolEntriesArePermanent | src/vm/vm.cpp:915-941 | from any configuration, whatever follows, pools only grow and an entry once made never changes |
| Handles.ChainBound | src/vm/vm.cpp:628-679 | a chain of unwraps from the k-th value made has at most k+1 links |
| Handles.UnwrapChainsEnd | src/vm/vm.cpp:628-723 | with sound host writes every chain of unwraps is no longer than the pools together |
| Handles.NullHandlesUnreachable | src/vm/vm.cpp:951-970 | with sound host writes a test or unwrap of a correctly tagged register finds its entry, so it faults exactly when the entry lacks the wanted payload |
| Handles.TensorInsnsAlwaysFault | src/vm/vm.cpp:359-569 | with sound host writes every tensor instruction ends in TypeFault |
| Handles.TensorInsnsNeverCommit | src/vm/vm.cpp:943-984 | in no reachable configuration, forged handles included, is there a tensor or a shape, so no tensor instruction is ever trap-free |
| StackDiscipline.StackIsConserved | src/vm/vm.cpp:724-755 | in every reachable configuration sp + frame sizes + pushes = stack limit + pops, and sp is at or above the stack start |
| StackDiscipline.SpInsideIff | src/vm/vm.cpp:857-874 | sp is at or below the stack limit if and only if pops have not outrun pushes and live frame words |
| StackDiscipline.StepOvershootsIff | src/vm/vm.cpp:740-755 | from inside the segment a step moves sp above it if and only if it is a matching StackFree with sp plus the frame size beyond the limit |
| StackDiscipline.StepTidyIff | src/vm/vm.cpp:260-276 | one step keeps the frames nested below one another with sp below the last if and only if it is not an undisciplined pop |
| StackDiscipline.TidyHistoryIffDisciplined | src/vm/vm.cpp:724-755 | the same for whole histories, in both directions |
| StackDiscipline.DisciplinedProgramsStayTidy | src/vm/vm.cpp:724-755 | from loading on, disciplined pops keep sp and all frames inside the stack segment |
| StackDiscipline.TidyFramesDisjoint | src/vm/vm.cpp:733-734 | live frames of a tidy stack are pairwise disjoint |
| StackDiscipline.PushStaysClear | src/vm/vm.cpp:857-864 | every push on a tidy stack writes the register's value to one word of the stack segment, below every live frame |
| StackDiscipline.MemoryIndexIff | src/vm/vm.cpp:857-874 | with the stack segment inside the memory, an instruction indexes the memory out of range if and only if it is a push with sp beyond the memory; a pop never does |
| StackDiscipline.TidyStackAccessesDefined | src/vm/vm.cpp:861-870 | with a tidy stack no instruction indexes the memory out of range |
| StackDiscipline.UndisciplinedPopOvershoots | src/vm/vm.cpp:740-752 | a validated three-instruction program moves sp above the stack segment |
| HeapTiling.SegmentsPartitionMemory | src/vm/loader.cpp:30-40 | for every program length each address below the total size lies in exactly one segment, and no other address in any |
| HeapTiling.SegmentsInOrder | src/vm/loader.cpp:21-40 | code, 256 words of stack, 768 of heap, 256 for tensors, 256 of meta data, in this order, and nothing behind |
| HeapTiling.MemoryStaysMapped | src/vm/loader.cpp:30-40 | in every reachable configuration layout and memory size are those of the load |
| HeapTiling.ValidMemIff | src/vm/vm.cpp:820-838 | in every reachable configuration an address is valid if and only if it indexes the memory |
| HeapTiling.TilesContiguous | src/vm/vm.cpp:765-767 | tiling blocks are non-empty, in range, and each begins where the one before ends |
| HeapTiling.TilesTotal | src/vm/vm.cpp:765-767 | tiling blocks account for every address between the two ends |
| HeapTiling.HeapStaysTiled | src/vm/vm.cpp:756-788 | in every reachable configuration the live blocks tile the heap from its start to the heap pointer, which is within the limit |
| HeapTiling.FreeRestoresAllocator | src/vm/vm.cpp:756-788 | whatever the host writes meanwhile, the action at which the block count first falls back to its value before an allocation is a free, and restores blocks and heap pointer exactly |
| Allocators.HeapFreeIff | src/vm/vm.cpp:773-788 | a HeapFree commits if and only if a block is live, register a converts to the base of the newest and operand b, at least zero, is its size; otherwise it is a DecodeFault |
| Allocators.StackFreeIff | src/vm/vm.cpp:740-755 | the same for StackFree and the newest frame, with StackFault |
| Allocators.HeapAllocGives | src/vm/vm.cpp:756-772 | a trap-free HeapAlloc leaves the base of the newest block, the old heap pointer, in register a; the block has the size asked for and ends within the limit |
| Allocators.StackAllocGives | src/vm/vm.cpp:724-739 | a trap-free StackAlloc leaves the base of the newest frame, where sp now points, in register a |
| Allocators.HeapBlockIsTakenBack | src/vm/vm.cpp:756-788 | whatever lies between, a HeapFree of the address that a reachable HeapAlloc gave and of its size commits when that block is the newest, and sets the heap pointer back |
| Allocators.StackFrameIsTakenBack | src/vm/vm.cpp:724-755 | the same for StackAlloc and StackFree, which moves sp back to where it was before the allocation |
| CodeSegment.CodeWordsChangeIff | src/vm/vm.cpp:93-101 | in a reachable configuration a step changes a word of the code segment if and only if it is a Store of another value into that address |
| CodeSegment.StoreChangesCode | src/vm/vm.cpp:93-101 | a validated two-instruction program overwrites its own first word |
| TraceReplay.StepFaithfulIff | src/vm/vm.cpp:161-172 | one step keeps the trace faithful about a register if and only if it does not change it quietly: an Inc or Dec of it, or a Pop that finds another value or replaces a tag other than Int |
| TraceReplay.FaithfulHistoryIff | src/vm/vm.cpp:866-882 | along a history of a fresh interpreter replaying the trace gives a register its value and tag at every moment if and only if no step changes it quietly and no host write puts anything new into it |
| TraceReplay.HostWriteEscapesReplay | src/vm/vm.cpp:809-813 | a host write of a new value escapes the trace |
| TraceReplay.ReplayIsFaithful | src/vm/vm.cpp:876-882 | a register that no traced Inc, Dec or Pop names is faithful, a condition readable off the trace alone |
| TraceReplay.ReplayGivesRegisterFile | src/vm/vm.cpp:993-1041 | without Inc, Dec and Pop the replay of the trace is the whole register file, however the run ends |
| TraceReplay.IncEscapesReplay | src/vm/vm.cpp:161-166 | after one Inc the replay misses the new value |
| EventLog.StepLogs | src/vm/vm.cpp:840-855 | a step appends at most one event; that the code does so, instruction by instruction, is Interpreters.Interpreter.Execute |
| EventLog.LogFollowsTrace | src/vm/vm.cpp:83-101 | in every reachable configuration the opcodes of the event log are those of the trace entries that a fixed predicate of instruction and trap selects, in order |
| EventLog.NewEventSays | src/vm/vm.cpp:840-855 | a new event carries the opcode of its instruction and the segment, address, verdict and guarded value of that access |
| EventLog.TierZeroDeniesGuards | src/vm/vm.cpp:321-358 | under tier 0 no AxRead, AxSet or AxVerify entry of any reachable trace is trap-free |
| Runs.RunToHaltComposes | src/vm/vm.cpp:794-805 | a run that exhausts m steps and continues with n gives the result and state of one run with m+n |
| Runs.RunToHaltIsRun | src/vm/vm.cpp:794-805 | `run_to_halt` ends where some number of steps within its budget leads, the whole budget when it is exhausted |
| Runs.RunToHaltExactly | src/vm/vm.cpp:794-805 | a run that halts in exactly k steps succeeds with a budget m if and only if m >= k |
| Runs.AccountsHold | src/vm/vm.cpp:51-53 | in every reachable configuration gc_cycles is steps / 64, and the payload is that of the last trapping entry, or absent once halted |
| Runs.TraceCountsSteps | src/vm/vm.cpp:993-1041 | n steps of a machine that has not halted add exactly n trace entries and keep the earlier ones |
| Runs.TrapsAreAtomic | src/vm/vm.cpp:1005-1041 | a trapping step leaves pc, registers, tags, memory, flags, sp, heap pointer, frames, pools and call stack unchanged; that the code does so, instruction by instruction, is Interpreters.Interpreter.Execute |
| Runs.TrapsArePermanent | src/vm/vm.cpp:34-43 | with no preload trap pending, every later step raises the same trap with the same payload and appends an identical entry |
| Runs.HaltIsFinal | src/vm/vm.cpp:35-37 | a halted interpreter changes nothing at all |
| Runs.RunToHaltUndefinedIff | src/vm/vm.cpp:794-805 | `run_to_halt` meets undefined behaviour if and only if no preload trap is pending and one of the steps its budget allows is undefined |
| Runs.ReloadEqualsFresh | src/vm/vm.cpp:18-49 | after reloading a validated non-empty program, an interpreter with any history shows what a new one shows, after every number of steps |
| Runs.ReloadEqualsFreshButWrites | src/vm/vm.cpp:18-49 | for every program, rejected and empty ones included, the two agree except in write records |
| Runs.ReloadEqualsFreshIff | src/vm/vm.cpp:18-49 | a reloaded interpreter shows what a new one shows after every number of steps if and only if the program is validated and not empty, or no write record was left over |
| Runs.LeftoverRecordShows | src/vm/vm.cpp:41-49 | after a register write an empty program is traced differently than on a new interpreter |
| Safety.InsnOkIff | src/vm/validator.cpp:106-237 | an instruction passes if and only if its opcode is listed, a jump goes to an instruction and every operand it uses as a register index is in the file, operand b of five opcodes excepted |
| Safety.ValidatesIff | src/vm/validator.cpp:106-237 | a program is accepted if and only if every instruction is so, and is rejected with DecodeFault |
| Safety.RegisterFaultIff | src/vm/validator.cpp:195-200 | an executing step of a validated program indexes the register file out of range if and only if it is one of five opcodes with b out of range |
| Safety.ValidationMissesOperandB | src/vm/validator.cpp:195-200 | a program that passes validation and indexes the register file out of range in its first step |
| Safety.ValidatedOperandsIff | src/vm/validator.cpp:106-237 | for a validated program, b is in range for the five opcodes if and only if every operand that an instruction uses as a register index is in the file |
| Safety.JumpsNeverTrap | src/vm/vm.cpp:61-67 | in a validated program a jump always commits |
| Safety.PcStaysInRange | src/vm/vm.cpp:61-67 | in every reachable configuration pc and all return addresses are at most the program length |
| Safety.ValidatedProgramsAreSafe | src/vm/validator.cpp:106-237 | in no reachable configuration of a validated program with b in range is the register file indexed out of range, a jump trapped, or the fault after the switch reached |
| Safety.MemoryFaultIff | src/vm/vm.cpp:857-874 | in a reachable configuration of a validated program a step indexes the memory out of range if and only if it is a push with sp beyond the memory |
| Overflow.OverflowIff | src/vm/vm.cpp:122-181 | on 64-bit registers an instruction overflows if and only if the guard says so of its operands: sums, differences and products out of range, the least number by minus one, negating or decrementing the least, incrementing the greatest |
| Overflow.ValuesStayInRange | src/vm/vm.cpp:122-147 | in every reachable configuration of a typed program with typed host writes registers, memory and pool payloads fit 64 bits |
| Overflow.UndefinedIff | src/vm/vm.cpp:34-792 | in a reachable configuration of a validated program a step is undefined in exactly three ways, each with its guard: push beyond the memory, unchecked operand b out of range, overflow |
| Overflow.DisciplinedProgramsAreDefined | src/vm/vm.cpp:34-792 | with disciplined pops and b in range a step is undefined if and only if it overflows |
| TrapCodes.TrapIff | src/vm/vm.cpp:34-792 | in a reachable configuration of a validated program a step raises a given trap if and only if the cause of that trap is there, one cause for each of the nine codes |
| TrapCodes.DoneIff | src/vm/vm.cpp:34-792 | such a step is trap-free if and only if the machine has halted or there is an instruction, no trap has its cause and none of the three hazards is there |
| TrapCodes.UnlistedTraps | src/vm/vm.cpp:791 | an opcode outside the enumeration, as a rejected program may hold, is a DecodeFault |
| TrapCodes.PayloadSays | src/vm/vm.cpp:1005-1041 | after a trap the payload is the trap, pc, the instruction with its three operands, and the segment and phrase of its cause; off the end it is Nop with zeros |
| TrapCodes.PreloadPayloadSays | src/vm/vm.cpp:38-40 | the preload trap names the instruction at pc with its operands |
| Overflow.ValidatedProgramOverflows | src/vm/vm.cpp:139-143 | a validated program with all operands in range divides the least number by minus one |
| StackOverrun.ValidatedProgramOverruns | src/vm/vm.cpp:740-755 | a validated program with all operands in range pushes one word past the end of the memory |
| Safety.RejectedProgramsExecute | src/vm/vm.cpp:38-40 | every rejected program traps with DecodeFault in its first step, leaves the machine alone, and executes an instruction in its second |
| Safety.RejectedProgramHalts | src/vm/vm.cpp:1039 | a rejected program that halts in its second step |
| ForwardOnly.BudgetSuffices | src/vm/vm.cpp:794-805 | the distance to the end of a loop-free program bounds the number of trap-free steps |
| ForwardOnly.RunEnds | src/vm/vm.cpp:794-805 | a run that does not exhaust its budget shows how it ended: halted, or with its trap as the last trace entry |
| ForwardOnly.LoopFreeProgramsEnd | src/vm/vm.cpp:277-302 | a validated loop-free program with b in range ends within its length plus one, halted or with its trap recorded, except if and only if a step pushes beyond the memory or overflows |
| Benchmark.LoopCost | scripts/perf-regression-check.py:39-50 | for every 64-bit N >= 1 the loop halts after exactly 3N+3 steps with r0=0, r1=1, r2=N and (3N+3)/64 collections, and a budget suffices if and only if it is at least 3N+3 |
| Benchmark.LoopTextReads | scripts/perf-regression-check.py:39-50 | the text of the performance check, with its mixed-case names, reads as that loop |
| TensorAlgebra.MatMulOfMatrices | src/vm/vm.cpp:394-414 | on well-formed matrices TMatMul succeeds if and only if the inner dimensions agree |
| TensorSteps.BinaryTensorStep | src/vm/vm.cpp:359-442 | on two handles of tensors, in any configuration, the step appends the entrywise sum or product, the matrix product or the dot product and leaves its handle, or is a ShapeFault exactly when the shapes do not fit |
| TensorSteps.UnaryTensorStep | src/vm/vm.cpp:443-553 | the same for the operations on one tensor; TRoPE turns each pair (x, y) into (y, -x) |
| TensorSteps.ShapeCheckStep | src/vm/vm.cpp:554-569 | ChkShape writes 1 if the tensor has the shape and 0 if not |
| TensorAlgebra.MatMulUnit | src/vm/vm.cpp:384-419 | the unit matrix is neutral for TMatMul on both sides |
| TensorAlgebra.DotIsMatMul | src/vm/vm.cpp:420-442 | TTenDot is the matrix product of one row by one column |
| TensorAlgebra.MatMulAssociative | src/vm/vm.cpp:384-419 | TMatMul is associative, as an operation on tensors |
| TensorAlgebra.TransposeEntries | src/vm/vm.cpp:459-464 | entry (i, j) of a matrix is entry (j, i) of its transpose |
| TensorAlgebra.TransposeInvolutive | src/vm/vm.cpp:443-470 | TTranspose undoes itself |
| TensorAlgebra.TransposeOfProduct | src/vm/vm.cpp:384-470 | the transpose of a product is the product of the transposes in reverse order |
| TensorAlgebra.RotateTwiceNegates | src/vm/vm.cpp:537-547 | applying TRoPE twice negates every element |
| TensorAlgebra.OperationsKeepWellFormed | src/vm/vm.cpp:359-553 | every tensor operation that succeeds on well-formed tensors gives a well-formed tensor |
| TensorAlgebra.TensorPoolStaysWellFormed | src/vm/vm.cpp:943-949 | from any configuration whose tensors are well formed every run keeps them so |
| HashLoop.MixU64 | src/vm/summary.cpp:13-19 | the byte loop hashes the eight bytes of a word, least significant first |
| HashLoop.HashByteBijective | src/vm/summary.cpp:16-17 | xor and multiplication by the odd prime are undone by the inverse 0xCE965057AFF6957B modulo 2^64, in both directions |
| HashLoop.HashBytesBijective | src/vm/summary.cpp:13-19 | hashing a fixed stream is a bijection of the accumulator |
| HashLoop.OneByteSeparates | src/vm/summary.cpp:13-19 | two streams of one length that differ in exactly one byte hash differently |
| HashLoop.BytesReadBack | src/vm/summary.cpp:14-15 | the bytes hashed for a word are the one list of eight bytes that, least significant first, reads as the word |
| HashLoop.BytesDetermineWord | src/vm/summary.cpp:14-15 | a 64-bit word is determined by its eight bytes |
| StateHashing.MixValues | src/vm/summary.cpp:47-52 | the register and memory loops hash the values converted to unsigned words |
| StateHashing.MixTrace | src/vm/summary.cpp:54-62 | the trace loop hashes six words per entry |
| StateHashing.StateHash | src/vm/summary.cpp:41-90 | `state_hash` is the word-by-word hash of the encoding of the state from the repository's offset basis |
| StateHashing.MachineWords | src/vm/summary.cpp:43-54 | word 0 is pc, 1 the halted flag, 2 the collections, then the registers, the memory and the trace length, each modulo 2^64 |
| StateHashing.EntryWordsAt | src/vm/summary.cpp:55-62 | where the six words of each trace entry stand and what they are |
| StateHashing.PayloadFieldsAt | src/vm/summary.cpp:64-79 | where the nine words of the payload stand, operand a before b before c, or the one for its absence |
| StateHashing.LastWordsAt | src/vm/summary.cpp:75-88 | where the characters of the detail and the policy stand, and that nothing follows |
| StateHashing.WordsDetermineState | src/vm/summary.cpp:41-90 | for states in range with whole write records and equal memory length, equal words mean equal pc, halted, gc_cycles, registers, memory, trace, payload and policy |
| StateHashing.HistoriesMakeTraces | src/vm/vm.cpp:993-1041 | every history makes traces whose writes are whole or absent and whose traps are real, as the encoding needs |
| StateHashing.ReachedInRange | src/vm/summary.cpp:41-90 | in every reachable configuration of a typed program all that the hash covers holds values of its C++ types |
| StateHashing.ReachedStatesHaveDistinctWords | src/vm/summary.cpp:41-90 | two reached states with equal memory length feed the hash the same words if and only if they agree on everything it covers |
| StateHashing.BytesDetermineWords | src/vm/summary.cpp:13-19 | the byte stream determines the word stream |
| StateHashing.HashOfBytes | src/vm/summary.cpp:13-19 | hashing words is hashing their bytes |
| StateHashing.OneByteOfOneWord | src/vm/summary.cpp:41-90 | states whose words differ in one byte of one word hash differently |
| StateHashing.HaltingChangesHash | src/vm/summary.cpp:44 | setting the halted flag always changes the hash |
| PayloadLine.EscapeDetail | src/vm/summary.cpp:21-37 | the buffer loop computes the escaped text |
| PayloadLine.EscapeInverts | src/vm/summary.cpp:21-37 | a text reads as detail s followed by rest if and only if it is the escaped s, a quote and rest |
| PayloadLine.EscapedIsOneLine | src/vm/summary.cpp:30-33 | escaped text contains no newline |
| PayloadLine.SummaryLine | src/vm/summary.cpp:117-133 | the summary line is the fields in order, or empty without a payload |
| PayloadLine.LineSays | src/vm/summary.cpp:117-133 | the line is the list of seven names and values and the quoted detail, each value under its own name |
| PayloadLine.TrapLine | src/vm/summary.cpp:117-133 | the line after a trap of an instruction names the trap, pc, the opcode number, the three operands and what is to blame |
| PayloadLine.LineDeterminesPayload | src/vm/summary.cpp:117-133 | two payloads with the same summary line are equal |
| PayloadLine.SummaryIsOneLine | src/vm/summary.cpp:117-133 | the summary is a single line whatever the detail |
| Lexical.Trim | src/vm/program_io.cpp:111-121 | the two-index loop computes the trimmed text |
| Lexical.TrimmedIs | src/vm/program_io.cpp:111-121 | the trimmed text is the one part without blanks at its ends between two runs of blanks |
| Lexical.ExtractDecimal | src/vm/program_io.cpp:144-147 | a printed number after blanks is read back, and reading stops right behind it; beyond 64 bits the nearest limit is read and the stream fails |
| OpcodeNames.OpcodeFromString | src/vm/program_io.cpp:16-109 | the buffer loop drops separators and raises the case before the lookup |
| OpcodeNames.EveryOpcodeNamed | src/vm/program_io.cpp:27-107 | every opcode of the enumeration has a name in the table |
| OpcodeNames.LookupIsTable | src/vm/program_io.cpp:27-108 | the lookup of a normalised spelling is the table of the 92 names and their opcodes, and nothing else is found |
| OpcodeNames.SeparatorsIgnored | src/vm/program_io.cpp:19-22 | an underscore or hyphen may be inserted anywhere |
| OpcodeNames.CaseIgnored | src/vm/program_io.cpp:23 | spellings that differ only in case are the same |
| OpcodeNames.SpellingShape | src/vm/program_io.cpp:27-108 | a recognised spelling is a word that starts no comment and is not POLICY |
| TextReader.LoadText | src/vm/program_io.cpp:123-159 | the line loop reads the lines of the text one after the other up to the first unknown opcode |
| TextReader.LineReadsIff | src/vm/program_io.cpp:149-153 | one line is refused exactly when its first word is no POLICY and no spelling of a name of the table; the error names the word and the program stays |
| TextReader.LoadsIff | src/vm/program_io.cpp:150-153 | reading succeeds if and only if every line is blank, a comment, a policy or starts with a spelling of a name of the table; otherwise the error names the first word of the first other line and the program is that of the lines before |
| TextReader.OperandsMissing | src/vm/program_io.cpp:144-147 | operands that are missing or not numbers are zero, and so are those after a number beyond 64 bits, which gives the nearest limit |
| TextReader.FinalNewline | src/vm/program_io.cpp:128 | a missing final newline makes no difference |
| TextReader.LineReads | src/vm/program_io.cpp:128-155 | each line of the format, with any blanks and any accepted spelling, has the effect it says |
| TextReader.DocumentReads | src/vm/program_io.cpp:123-159 | a document with comments and blank lines anywhere reads as the program it says |
| TextReader.RoundTrip | src/vm/program_io.cpp:123-159 | every program of listed opcodes and 64-bit operands with a trimmed one-line policy survives writing and reading |

## Left out

- Interpreters.Interpreter.ExecuteUnaryTensor: does not model the arithmetic of the five floating-point kernels (TExp, TSqrt, TSiLU, TSoftmax, TRMSNorm), which is a parameter `fp` of the image, of which well-formedness needs only that it keeps lengths; their shape faults on empty data are modelled. The fault of TSoftmax on a zero sum is left out: the largest element contributes exp(0).
- Overflow.UndefinedIff: does not model overflow inside the integer tensor kernels; no reachable configuration holds a tensor (`Handles.TensorInsnsNeverCommit`), so no kernel is ever run. It assumes fewer than 2^62 instructions and actions together.
- Allocators.HeapBlockIsTakenBack: does not cover histories of 2^62 instructions and actions or more, where addresses would no longer fit a register; neither does Allocators.StackFrameIsTakenBack.
- TensorAlgebra.MatMulAssociative: does not model wrap-around of the `std::size_t` products of two dimensions; dimensions of well-formed tensors are at most 2^63 - 1 and the products are taken as they are.
- Interpreters.Interpreter.Step: where the behaviour of the source is undefined nothing is promised; `Overflow.UndefinedIff` says exactly when that is.
- OpcodeNames.OpcodeFromString: the name comparisons are grouped by the length of the name; at most one of them can hold, so their order does not matter.
- Reading the policy tier out of the policy text with a regular expression: the tier found, if any, is part of the image.
- EventLog.LogFollowsTrace: the wording of the reason strings is abstracted to an event kind with segment, address, value and verdict.
- Lexical.ExtractDecimal: stream extraction is modelled for the C locale, without digit grouping.
- The JSON program loader, opening of files and the choice of format by file name.
- The register line and the layout of the whole snapshot, the command-line program, the C interface and the accelerated preview, which only forward to what is modelled.
