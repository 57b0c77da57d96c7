/**
 The interpreter object. Its methods update the fields, the register arrays and the memory in place,
 in the order the source does, and are proved to refine the functions of `Semantics`.
 */
module Interpreters {
  import opened Options
  import opened Isa
  import opened State
  import opened Loader
  import opened Tensors
  import opened Semantics
  import opened Histories

  class Interpreter {
    var program: Image
    // the observable state
    var pc: nat
    var halted: bool
    const registers: array<int>
    const registerTags: array<Tag>
    var memory: array<int>
    var trace: seq<TraceEntry>
    var axionLog: seq<AxionEvent>
    var flags: Flags
    var layout: Layout
    var sp: nat
    var heapPtr: nat
    var stackFrames: seq<Block>
    var heapFrames: seq<Block>
    var optionPool: seq<OptionValue>
    var resultPool: seq<ResultValue>
    var enumPool: seq<EnumValue>
    var tensorPool: seq<TensorValue>
    var shapePool: seq<seq<int>>
    var lastTrapPayload: Option<TrapPayload>
    var policy: Option<int>
    var gcCycles: nat
    // private bookkeeping
    var preloadTrap: Option<Trap>
    var steps: nat
    var callStack: seq<nat>
    var currentWrite: Write

    ghost predicate Valid()
      reads this
    {
      registers.Length == REGISTER_COUNT && registerTags.Length == REGISTER_COUNT && registers != memory
    }

    ghost function Regs(): RegFile
      reads registers
      requires registers.Length == REGISTER_COUNT
    {
      registers[..]
    }

    ghost function Tags(): TagFile
      reads registerTags
      requires registerTags.Length == REGISTER_COUNT
    {
      registerTags[..]
    }

    ghost function Mem(): seq<int>
      reads this`memory, memory
    {
      memory[..]
    }

    ghost function AsMachine(): (m: Machine)
      reads this, registers, registerTags, memory
      requires Valid()
    {
      Machine(pc, halted, Regs(), Tags(), flags, Mem(), layout,
              sp, heapPtr, stackFrames, heapFrames,
              optionPool, resultPool, enumPool, tensorPool, shapePool, policy, callStack)
    }

    ghost function AsConfig(): (c: Config)
      reads this, registers, registerTags, memory
      requires Valid()
    {
      Config(AsMachine(), trace, axionLog, lastTrapPayload, gcCycles, steps, preloadTrap, currentWrite)
    }

    // ----- Loading. -----

    /** `make_interpreter_vm`: no program is loaded yet. */
    constructor (fp: (Opcode, seq<int>) -> seq<int>)
      ensures Valid() && program == NoProgram(fp) && AsConfig() == Unloaded(program)
      ensures fresh(registers) && fresh(registerTags) && fresh(memory)
    {
      program := NoProgram(fp);
      pc, halted, flags := 0, false, Flags(false, false, false);
      registers := new int[REGISTER_COUNT](_ => 0);
      registerTags := new Tag[REGISTER_COUNT](_ => IntTag);
      memory := new int[0];
      trace, axionLog, lastTrapPayload, gcCycles := [], [], None, 0;
      var none := Extent(0, 0);
      layout := Layout(none, none, none, none, none);
      sp, heapPtr, stackFrames, heapFrames := 0, 0, [], [];
      optionPool, resultPool, enumPool, tensorPool, shapePool := [], [], [], [], [];
      policy, preloadTrap, steps, callStack, currentWrite := None, None, 0, [], NO_WRITE;
    }

    /** `load_program`: everything but the record of the last register write is reset. */
    method LoadProgram(p: Image)
      requires Valid()
      modifies this, registers, registerTags
      ensures Valid() && program == p && fresh(memory)
      ensures AsConfig() == LoadWith(p, old(currentWrite))
    {
      Bind(p);
      LoadImage(p);
      ResetRun();
    }

    method Bind(p: Image)
      modifies this`program, this`preloadTrap
      ensures program == p && preloadTrap == Validate(p)
    {
      program := p;
      preloadTrap := Validate(p);
    }

    /** The part of loading that fills in the segments, the memory and the allocator pointers. */
    method LoadImage(p: Image)
      requires Valid()
      modifies this`layout, this`memory, this`sp, this`heapPtr, this`policy, registers, registerTags
      ensures Valid() && fresh(memory)
      ensures var m := InitialMachine(p);
              && layout == m.layout && memory[..] == m.mem && sp == m.sp && heapPtr == m.heapPtr
              && policy == m.policy && registers[..] == m.regs && registerTags[..] == m.tags
    {
      for i := 0 to REGISTER_COUNT
        invariant forall k :: 0 <= k < i ==> registers[k] == 0 && registerTags[k] == IntTag
      {
        registers[i] := 0;
        registerTags[i] := IntTag;
      }
      layout := LayoutFor(|p.insns|);
      memory := new int[layout.TotalSize()](_ => 0);
      sp := layout.stack.limit;
      heapPtr := layout.heap.start;
      policy := p.tier;
      assert memory[..] == InitialMachine(p).mem;
      assert registers[..] == ZERO_REGS && registerTags[..] == INT_TAGS;
    }

    method ClearPools()
      modifies this`optionPool, this`resultPool, this`enumPool, this`tensorPool, this`shapePool
      ensures optionPool == [] && resultPool == [] && enumPool == [] && tensorPool == [] && shapePool == []
    {
      optionPool := [];
      resultPool := [];
      enumPool := [];
      tensorPool := [];
      shapePool := [];
    }

    /** What a new run reports: nothing yet. */
    method ClearReports()
      modifies this`trace, this`axionLog, this`lastTrapPayload, this`gcCycles
      ensures trace == [] && axionLog == [] && lastTrapPayload == None && gcCycles == 0
    {
      trace := [];
      axionLog := [];
      lastTrapPayload := None;
      gcCycles := 0;
    }

    method ClearControl()
      modifies this`pc, this`halted, this`flags, this`stackFrames, this`heapFrames, this`callStack, this`steps
      ensures pc == 0 && !halted && flags == Flags(false, false, false)
      ensures stackFrames == [] && heapFrames == [] && callStack == [] && steps == 0
    {
      pc := 0;
      halted := false;
      flags := Flags(false, false, false);
      stackFrames := [];
      heapFrames := [];
      callStack := [];
      steps := 0;
    }

    method ResetRun()
      requires Valid()
      modifies this`pc, this`halted, this`flags, this`stackFrames, this`heapFrames, this`callStack, this`steps
      modifies this`optionPool, this`resultPool, this`enumPool, this`tensorPool, this`shapePool
      modifies this`trace, this`axionLog, this`lastTrapPayload, this`gcCycles
      ensures Valid()
      ensures AsMachine() == old(AsMachine()).(
        pc := 0, halted := false, flags := Flags(false, false, false), stackFrames := [], heapFrames := [], calls := [],
        options := [], results := [], enums := [], tensors := [], shapes := [])
      ensures trace == [] && axionLog == [] && lastTrapPayload == None && gcCycles == 0 && steps == 0
    {
      ClearControl();
      ClearPools();
      ClearReports();
    }

    /** `set_register`: a host write; indices outside the file are ignored. */
    method SetRegister(idx: int, value: int, tag: Tag)
      requires Valid()
      modifies this`currentWrite, registers, registerTags
      ensures Valid()
      ensures AsConfig() == HostWritten(old(AsConfig()), idx, value, tag)
    {
      if InFile(idx) { SetRegisterValue(idx, value, tag); }
    }

    // ----- Helpers shared by the instructions. -----

    method SetRegisterValue(reg: nat, value: int, tag: Tag)
      requires Valid() && InFile(reg)
      modifies this`currentWrite, registers, registerTags
      ensures registers[..] == old(registers[..])[reg := value]
      ensures registerTags[..] == old(registerTags[..])[reg := tag]
      ensures currentWrite == Recorded(reg, value, tag)
    {
      registers[reg] := value;
      registerTags[reg] := tag;
      currentWrite := Recorded(reg, value, tag);
    }

    method TraceOk(opcode: Opcode, at: nat) returns (r: Status)
      modifies this`trace
      ensures r == Done && trace == old(trace) + [TraceEntry(at, opcode, currentWrite, None)]
    {
      trace := trace + [TraceEntry(at, opcode, currentWrite, None)];
      r := Done;
    }

    method RaiseTrap(t: Trap, opcode: Opcode, at: nat, segment: Segment, detail: string) returns (r: Status)
      modifies this`lastTrapPayload, this`trace, this`preloadTrap
      ensures r == Trapped(t) && preloadTrap == None
      ensures lastTrapPayload == Some(PayloadOf(program, t, opcode, at, segment, detail))
      ensures trace == old(trace) + [TraceEntry(at, opcode, currentWrite, Some(t))]
    {
      var a, b, c := 0, 0, 0;
      if at < |program.insns| {
        var fault := program.insns[at];
        if fault.opcode == opcode {
          a, b, c := fault.a, fault.b, fault.c;
        }
      }
      lastTrapPayload := Some(TrapPayload(t, at, opcode, a, b, c, segment, detail));
      trace := trace + [TraceEntry(at, opcode, currentWrite, Some(t))];
      preloadTrap := None;
      r := Trapped(t);
    }

    method Log(opcode: Opcode, kind: EventKind)
      modifies this`axionLog
      ensures axionLog == old(axionLog) + [AxionEvent(opcode, kind)]
    {
      axionLog := axionLog + [AxionEvent(opcode, kind)];
    }

    /** Go to instruction `next` and trace the step. */
    method Advance(i: Insn, next: nat) returns (r: Status)
      modifies this`pc, this`trace
      ensures r == Done && pc == next
      ensures trace == old(trace) + [TraceEntry(old(pc), i.opcode, currentWrite, None)]
    {
      var at := pc;
      pc := next;
      r := TraceOk(i.opcode, at);
    }

    /** Write register a, set the flags and go to the next instruction. */
    method CommitRegister(i: Insn, value: int, tag: Tag) returns (r: Status)
      requires Valid() && InFile(i.a)
      modifies this`currentWrite, this`flags, this`pc, this`trace, registers, registerTags
      ensures r == Done && pc == old(pc) + 1 && flags == FlagsOf(value)
      ensures registers[..] == old(registers[..])[i.a := value]
      ensures registerTags[..] == old(registerTags[..])[i.a := tag]
      ensures currentWrite == Recorded(i.a, value, tag)
      ensures trace == old(trace) + [TraceEntry(old(pc), i.opcode, currentWrite, None)]
    {
      SetRegisterValue(i.a, value, tag);
      flags := FlagsOf(registers[i.a]);
      r := Advance(i, pc + 1);
    }

    /** The step ends by writing register a, having reported `event` if there is one. */
    method Complete(i: Insn, value: int, tag: Tag, ghost event: Option<EventKind>, ghost log: seq<AxionEvent>)
      returns (r: Status)
      requires Valid() && InFile(i.a) && !halted && axionLog == Logged(log, i.opcode, event)
      modifies this`currentWrite, this`flags, this`pc, this`trace, registers, registerTags
      ensures Valid() && r == Done
      ensures AsConfig() == Finish(program, old(AsConfig()).(log := log), i,
                                   WriteBack(old(AsMachine()), i.a, value, tag, event)).c
    {
      r := CommitRegister(i, value, tag);
    }

    /** The step ends at instruction `next` without a register write. */
    method Proceed(i: Insn, next: nat, ghost event: Option<EventKind>, ghost log: seq<AxionEvent>) returns (r: Status)
      requires Valid() && !halted && currentWrite == NO_WRITE && axionLog == Logged(log, i.opcode, event)
      modifies this`pc, this`trace
      ensures Valid() && r == Done
      ensures AsConfig() == Finish(program, old(AsConfig()).(log := log), i,
                                   Commit(old(AsMachine()).(pc := next), NO_WRITE, event)).c
    {
      r := Advance(i, next);
    }

    /** The step ends in a trap at the current instruction. */
    method Fail(i: Insn, t: Trap, segment: Segment, detail: string,
                ghost event: Option<EventKind>, ghost log: seq<AxionEvent>) returns (r: Status)
      requires Valid() && axionLog == Logged(log, i.opcode, event)
      modifies this`trace, this`lastTrapPayload, this`preloadTrap
      ensures Valid() && r == Trapped(t)
      ensures AsConfig() == Finish(program, old(AsConfig()).(log := log), i, Fault(t, segment, detail, event)).c
    {
      r := RaiseTrap(t, i.opcode, pc, segment, detail);
    }

    // ----- The switch of `step`. Each method starts with the write record cleared. -----

    method ExecuteArithmetic(i: Insn) returns (r: Status)
      requires Valid() && currentWrite == NO_WRITE && !halted && FamilyOf(i.opcode) == Arithmetic
      requires !ExecArithmetic(AsMachine(), i).Undefined?
      modifies this`currentWrite, this`flags, this`pc, this`trace, this`lastTrapPayload, this`preloadTrap
      modifies registers, registerTags
      ensures Valid()
      ensures StepResult(AsConfig(), r) == Finish(program, old(AsConfig()), i, ExecArithmetic(old(AsMachine()), i))
    {
      var lhs, rhs := registers[i.b], registers[i.c];
      if IsDivision(i.opcode) && rhs == 0 {
        r := Fail(i, DivisionFault, Unknown, "division by zero", None, axionLog);
      } else {
        var result := Calculate(i.opcode, lhs, rhs);
        r := Complete(i, result, IntTag, None, axionLog);
      }
    }

    method ExecuteComparison(i: Insn) returns (r: Status)
      requires Valid() && currentWrite == NO_WRITE && !halted && FamilyOf(i.opcode) == Comparison
      requires !ExecComparison(AsMachine(), i).Undefined?
      modifies this`currentWrite, this`flags, this`pc, this`trace, this`lastTrapPayload, this`preloadTrap
      modifies registers, registerTags
      ensures Valid()
      ensures StepResult(AsConfig(), r) == Finish(program, old(AsConfig()), i, ExecComparison(old(AsMachine()), i))
    {
      var result := Compare(i.opcode, registers[i.b], registers[i.c]);
      r := Complete(i, if result then 1 else 0, IntTag, None, axionLog);
    }

    method ExecuteTritLogic(i: Insn) returns (r: Status)
      requires Valid() && currentWrite == NO_WRITE && !halted && FamilyOf(i.opcode) == TritLogic
      requires !ExecTritLogic(AsMachine(), i).Undefined?
      modifies this`currentWrite, this`flags, this`pc, this`trace, this`lastTrapPayload, this`preloadTrap
      modifies registers, registerTags
      ensures Valid()
      ensures StepResult(AsConfig(), r) == Finish(program, old(AsConfig()), i, ExecTritLogic(old(AsMachine()), i))
    {
      var lhs, rhs := ClampTrit(registers[i.b]), ClampTrit(registers[i.c]);
      r := Complete(i, Trit(i.opcode, lhs, rhs), IntTag, None, axionLog);
    }

    method ExecuteMove(i: Insn) returns (r: Status)
      requires Valid() && currentWrite == NO_WRITE && !halted && FamilyOf(i.opcode) == Move
      requires !ExecMove(AsMachine(), i).Undefined?
      modifies this`currentWrite, this`flags, this`pc, this`trace, this`lastTrapPayload, this`preloadTrap
      modifies this`axionLog, registers, registerTags
      ensures Valid()
      ensures StepResult(AsConfig(), r) == Finish(program, old(AsConfig()), i, ExecMove(old(AsMachine()), i))
    {
      if i.opcode.LoadImm? {
        r := Complete(i, i.b, IntTag, None, axionLog);
      } else if i.opcode.WeightsLoad? {
        ghost var before := axionLog;
        Log(i.opcode, WeightsLoaded);
        r := Complete(i, if i.b > 0 then i.b else 1000 + pc, WeightsTensorHandle, Some(WeightsLoaded), before);
      } else {
        var tag := if KeepsTag(i.opcode) then registerTags[i.b] else IntTag;
        r := Complete(i, Moved(i.opcode, registers[i.b]), tag, None, axionLog);
      }
    }

    /** Inc, Dec and Pop write register a behind the back of the trace. */
    method OverwriteRegister(reg: nat, value: int)
      requires Valid() && InFile(reg)
      modifies this`flags, registers, registerTags
      ensures registers[..] == old(registers[..])[reg := value]
      ensures registerTags[..] == old(registerTags[..])[reg := IntTag]
      ensures flags == FlagsOf(value)
    {
      registers[reg] := value;
      registerTags[reg] := IntTag;
      flags := FlagsOf(value);
    }

    method ExecuteAdjust(i: Insn) returns (r: Status)
      requires Valid() && currentWrite == NO_WRITE && !halted && FamilyOf(i.opcode) == Adjust
      requires !ExecAdjust(AsMachine(), i).Undefined?
      modifies this`currentWrite, this`flags, this`pc, this`trace, this`lastTrapPayload, this`preloadTrap
      modifies registers, registerTags
      ensures Valid()
      ensures StepResult(AsConfig(), r) == Finish(program, old(AsConfig()), i, ExecAdjust(old(AsMachine()), i))
    {
      if i.opcode.Cmp? {
        flags := FlagsOf(registers[i.a] - registers[i.b]);
      } else {
        OverwriteRegister(i.a, if i.opcode.Inc? then registers[i.a] + 1 else registers[i.a] - 1);
      }
      r := Proceed(i, pc + 1, None, axionLog);
    }

    method ExecuteLoad(i: Insn) returns (r: Status)
      requires Valid() && currentWrite == NO_WRITE && !halted
      requires !ExecLoad(AsMachine(), i).Undefined?
      modifies this`currentWrite, this`flags, this`pc, this`trace, this`lastTrapPayload, this`preloadTrap
      modifies this`axionLog, registers, registerTags
      ensures Valid()
      ensures StepResult(AsConfig(), r) == Finish(program, old(AsConfig()), i, ExecLoad(old(AsMachine()), i))
    {
      ghost var before := axionLog;
      if !ValidAddress(i.b) {
        Log(i.opcode, BoundsReport(Unknown, i.b));
        r := Fail(i, BoundsFault, Unknown, "memory load", Some(BoundsReport(Unknown, i.b)), before);
      } else {
        r := Complete(i, memory[i.b], IntTag, None, before);
      }
    }

    predicate ValidAddress(idx: int)
      reads this`memory, this`layout
    {
      0 <= idx < memory.Length && SegmentOf(layout, idx) != Unknown
    }

    method ExecuteStore(i: Insn) returns (r: Status)
      requires Valid() && currentWrite == NO_WRITE && !halted
      requires !ExecStore(AsMachine(), i).Undefined?
      modifies this`currentWrite, this`flags, this`pc, this`trace, this`lastTrapPayload, this`preloadTrap
      modifies this`axionLog, memory
      ensures Valid()
      ensures StepResult(AsConfig(), r) == Finish(program, old(AsConfig()), i, ExecStore(old(AsMachine()), i))
    {
      ghost var before := axionLog;
      if !ValidAddress(i.a) {
        Log(i.opcode, BoundsReport(Unknown, i.a));
        r := Fail(i, BoundsFault, Unknown, "memory store", Some(BoundsReport(Unknown, i.a)), before);
      } else {
        memory[i.a] := registers[i.b];
        var segment := SegmentOf(layout, i.a);
        if segment != Unknown { Log(i.opcode, SegmentAccess(segment)); }
        r := Proceed(i, pc + 1, if segment == Unknown then None else Some(SegmentAccess(segment)), before);
      }
    }

    method ExecutePush(i: Insn) returns (r: Status)
      requires Valid() && currentWrite == NO_WRITE && !halted
      requires !ExecPush(AsMachine(), i).Undefined?
      modifies this`currentWrite, this`flags, this`pc, this`trace, this`lastTrapPayload, this`preloadTrap
      modifies this`axionLog, this`sp, memory
      ensures Valid()
      ensures StepResult(AsConfig(), r) == Finish(program, old(AsConfig()), i, ExecPush(old(AsMachine()), i))
    {
      ghost var before := axionLog;
      if sp == 0 || sp - 1 < layout.stack.start {
        Log(i.opcode, BoundsReport(Stack, sp));
        r := Fail(i, StackFault, Stack, "stack push", Some(BoundsReport(Stack, sp)), before);
      } else {
        sp := sp - 1;
        memory[sp] := registers[i.a];
        r := Proceed(i, pc + 1, None, before);
      }
    }

    method PopRegister(i: Insn) returns (r: Status)
      requires Valid() && InFile(i.a) && sp < memory.Length
      modifies this`sp, this`flags, this`pc, this`trace, registers, registerTags
      ensures r == Done && sp == old(sp) + 1 && pc == old(pc) + 1 && flags == FlagsOf(memory[old(sp)])
      ensures registers[..] == old(registers[..])[i.a := memory[old(sp)]]
      ensures registerTags[..] == old(registerTags[..])[i.a := IntTag]
      ensures trace == old(trace) + [TraceEntry(old(pc), i.opcode, currentWrite, None)]
    {
      OverwriteRegister(i.a, memory[sp]);
      sp := sp + 1;
      r := Advance(i, pc + 1);
    }

    method CommitPop(i: Insn) returns (r: Status)
      requires Valid() && currentWrite == NO_WRITE && !halted && ExecPop(AsMachine(), i).Commit?
      modifies this`sp, this`flags, this`pc, this`trace, registers, registerTags
      ensures Valid() && r == Done
      ensures AsConfig() == Finish(program, old(AsConfig()), i, ExecPop(old(AsMachine()), i)).c
    {
      r := PopRegister(i);
    }

    method ExecutePop(i: Insn) returns (r: Status)
      requires Valid() && currentWrite == NO_WRITE && !halted
      requires !ExecPop(AsMachine(), i).Undefined?
      modifies this`currentWrite, this`flags, this`pc, this`trace, this`lastTrapPayload, this`preloadTrap
      modifies this`axionLog, this`sp, registers, registerTags
      ensures Valid()
      ensures StepResult(AsConfig(), r) == Finish(program, old(AsConfig()), i, ExecPop(old(AsMachine()), i))
    {
      ghost var before := axionLog;
      if sp >= layout.stack.limit {
        Log(i.opcode, BoundsReport(Stack, sp));
        r := Fail(i, StackFault, Stack, "stack pop", Some(BoundsReport(Stack, sp)), before);
      } else {
        r := CommitPop(i);
      }
    }

    method ExecuteJump(i: Insn) returns (r: Status)
      requires Valid() && currentWrite == NO_WRITE && !halted
      requires !ExecJump(program, AsMachine(), i).Undefined?
      modifies this`currentWrite, this`flags, this`pc, this`trace, this`lastTrapPayload, this`preloadTrap
      ensures Valid()
      ensures StepResult(AsConfig(), r) == Finish(program, old(AsConfig()), i, ExecJump(program, old(AsMachine()), i))
    {
      if !Taken(i.opcode, flags) {
        r := Proceed(i, pc + 1, None, axionLog);
      } else if i.a < 0 || i.a >= |program.insns| {
        r := Fail(i, DecodeFault, Unknown, "", None, axionLog);
      } else {
        r := Proceed(i, i.a, None, axionLog);
      }
    }

    method ExecuteCall(i: Insn) returns (r: Status)
      requires Valid() && currentWrite == NO_WRITE && !halted
      requires !ExecCall(program, AsMachine(), i).Undefined?
      modifies this`currentWrite, this`flags, this`pc, this`trace, this`lastTrapPayload, this`preloadTrap
      modifies this`callStack
      ensures Valid()
      ensures StepResult(AsConfig(), r) == Finish(program, old(AsConfig()), i, ExecCall(program, old(AsMachine()), i))
    {
      var target := registers[i.a];
      if target < 0 || target >= |program.insns| {
        r := Fail(i, DecodeFault, Unknown, "", None, axionLog);
      } else {
        callStack := callStack + [pc + 1];
        r := Proceed(i, target, None, axionLog);
      }
    }

    method ExecuteRet(i: Insn) returns (r: Status)
      requires Valid() && currentWrite == NO_WRITE && !halted
      requires !ExecRet(AsMachine()).Undefined?
      modifies this`currentWrite, this`flags, this`pc, this`trace, this`lastTrapPayload, this`preloadTrap
      modifies this`callStack
      ensures Valid()
      ensures StepResult(AsConfig(), r) == Finish(program, old(AsConfig()), i, ExecRet(old(AsMachine())))
    {
      if callStack == [] {
        r := Fail(i, StackFault, Unknown, "", None, axionLog);
      } else {
        var back := callStack[|callStack| - 1];
        callStack := callStack[..|callStack| - 1];
        r := Proceed(i, back, None, axionLog);
      }
    }

    method SetHalted(i: Insn) returns (r: Status)
      modifies this`halted, this`lastTrapPayload, this`pc, this`trace
      ensures r == Done && halted && lastTrapPayload == None && pc == old(pc) + 1
      ensures trace == old(trace) + [TraceEntry(old(pc), i.opcode, currentWrite, None)]
    {
      halted := true;
      lastTrapPayload := None;
      r := Advance(i, pc + 1);
    }

    method ExecuteHalt(i: Insn) returns (r: Status)
      requires Valid() && currentWrite == NO_WRITE && !halted
      modifies this`halted, this`lastTrapPayload, this`pc, this`trace
      ensures Valid()
      ensures StepResult(AsConfig(), r) ==
              Finish(program, old(AsConfig()), i, Next(old(AsMachine()).(halted := true)))
    {
      r := SetHalted(i);
    }

    method ExecuteControl(i: Insn) returns (r: Status)
      requires Valid() && currentWrite == NO_WRITE && !halted && FamilyOf(i.opcode) == Control
      requires !ExecControl(program, AsMachine(), i).Undefined?
      modifies this`currentWrite, this`flags, this`pc, this`trace, this`lastTrapPayload, this`preloadTrap
      modifies this`callStack, this`halted
      ensures Valid()
      ensures StepResult(AsConfig(), r) ==
        Finish(program, old(AsConfig()), i, ExecControl(program, old(AsMachine()), i))
    {
      if IsJump(i.opcode) {
        r := ExecuteJump(i);
        return;
      }
      match i.opcode {
        case Nop => r := Proceed(i, pc + 1, None, axionLog);
        case Halt => r := ExecuteHalt(i);
        case Call => r := ExecuteCall(i);
        case Ret => r := ExecuteRet(i);
        case TrapOp => r := Fail(i, TrapInstruction, Unknown, "", None, axionLog);
      }
    }

    method ExecuteMemory(i: Insn) returns (r: Status)
      requires Valid() && currentWrite == NO_WRITE && !halted && FamilyOf(i.opcode) == Memory
      requires !ExecMemory(AsMachine(), i).Undefined?
      modifies this`currentWrite, this`flags, this`pc, this`trace, this`lastTrapPayload, this`preloadTrap
      modifies this`axionLog, this`sp, registers, registerTags, memory
      ensures Valid()
      ensures StepResult(AsConfig(), r) == Finish(program, old(AsConfig()), i, ExecMemory(old(AsMachine()), i))
    {
      match i.opcode {
        case Load => r := ExecuteLoad(i);
        case Store => r := ExecuteStore(i);
        case Push => r := ExecutePush(i);
        case Pop => r := ExecutePop(i);
      }
    }

    method ExecuteAxRead(i: Insn) returns (r: Status)
      requires Valid() && currentWrite == NO_WRITE && !halted
      requires !ExecAxRead(AsMachine(), i).Undefined?
      modifies this`currentWrite, this`flags, this`pc, this`trace, this`lastTrapPayload, this`preloadTrap
      modifies this`axionLog, registers, registerTags
      ensures Valid()
      ensures StepResult(AsConfig(), r) == Finish(program, old(AsConfig()), i, ExecAxRead(old(AsMachine()), i))
    {
      ghost var before := axionLog;
      var denied := policy.Some? && policy.value == 0;
      var segment := if i.b >= 0 then SegmentOf(layout, i.b) else Unknown;
      var event := Guard(segment, i.b, denied, None);
      Log(i.opcode, event);
      if denied {
        r := Fail(i, SecurityFault, segment, "axion deny read", Some(event), before);
      } else {
        r := Complete(i, i.b, IntTag, Some(event), before);
      }
    }

    method ExecuteAxSet(i: Insn) returns (r: Status)
      requires Valid() && currentWrite == NO_WRITE && !halted
      requires !ExecAxSet(AsMachine(), i).Undefined?
      modifies this`currentWrite, this`flags, this`pc, this`trace, this`lastTrapPayload, this`preloadTrap
      modifies this`axionLog
      ensures Valid()
      ensures StepResult(AsConfig(), r) == Finish(program, old(AsConfig()), i, ExecAxSet(old(AsMachine()), i))
    {
      ghost var before := axionLog;
      var denied := policy.Some? && policy.value == 0;
      var value, addr := registers[i.b], registers[i.a];
      var segment := if addr >= 0 then SegmentOf(layout, addr) else Unknown;
      var event := Guard(segment, addr, denied, Some(value));
      Log(i.opcode, event);
      if denied {
        r := Fail(i, SecurityFault, segment, "axion deny set", Some(event), before);
      } else {
        r := Proceed(i, pc + 1, Some(event), before);
      }
    }

    method ExecuteAxVerify(i: Insn) returns (r: Status)
      requires Valid() && currentWrite == NO_WRITE && !halted
      requires !ExecAxVerify(AsMachine(), i).Undefined?
      modifies this`currentWrite, this`flags, this`pc, this`trace, this`lastTrapPayload, this`preloadTrap
      modifies this`axionLog, registers, registerTags
      ensures Valid()
      ensures StepResult(AsConfig(), r) == Finish(program, old(AsConfig()), i, ExecAxVerify(old(AsMachine()), i))
    {
      ghost var before := axionLog;
      var denied := policy.Some? && policy.value == 0;
      var event := Guard(Meta, pc, denied, None);
      Log(i.opcode, event);
      if denied {
        r := Fail(i, SecurityFault, Meta, "axion deny verify", Some(event), before);
      } else {
        r := Complete(i, 0, IntTag, Some(event), before);
      }
    }

    method ExecuteAxion(i: Insn) returns (r: Status)
      requires Valid() && currentWrite == NO_WRITE && !halted && FamilyOf(i.opcode) == Axion
      requires !ExecAxion(AsMachine(), i).Undefined?
      modifies this`currentWrite, this`flags, this`pc, this`trace, this`lastTrapPayload, this`preloadTrap
      modifies this`axionLog, registers, registerTags
      ensures Valid()
      ensures StepResult(AsConfig(), r) == Finish(program, old(AsConfig()), i, ExecAxion(old(AsMachine()), i))
    {
      match i.opcode {
        case AxRead => r := ExecuteAxRead(i);
        case AxSet => r := ExecuteAxSet(i);
        case AxVerify => r := ExecuteAxVerify(i);
      }
    }

    /** The tensor loops; `None` is a shape fault. */
    method ComputeBinaryTensor(op: Opcode, l: TensorValue, r: TensorValue) returns (t: Option<TensorValue>)
      requires FamilyOf(op) == BinaryTensor
      ensures t == BinaryTensorValue(op, l, r)
    {
      match op {
        case TVecAdd | TVecMul =>
          if |l.shape| != 1 || |r.shape| != 1 || l.shape != r.shape || |l.data| != |r.data| { return None; }
          var out := PointwiseLoop(op.TVecMul?, l.data, r.data);
          t := Some(TensorValue(l.shape, out));
        case TMatMul =>
          if |l.shape| != 2 || |r.shape| != 2 { return None; }
          var rows, inner := ToSize(l.shape[0]), ToSize(l.shape[1]);
          var rhsInner, cols := ToSize(r.shape[0]), ToSize(r.shape[1]);
          if inner != rhsInner || |l.data| != rows * inner || |r.data| != rhsInner * cols { return None; }
          var out := MatMulLoop(l.data, r.data, rows, inner, cols);
          t := Some(TensorValue([ToSigned(rows), ToSigned(cols)], out));
        case TTenDot =>
          if |l.data| != |r.data| { return None; }
          var sum := DotLoop(l.data, r.data);
          t := Some(TensorValue([1], [sum]));
      }
    }

    method ComputeUnaryTensor(op: Opcode, t: TensorValue) returns (u: Option<TensorValue>)
      requires FamilyOf(op) == UnaryTensor
      ensures u == if op.TTranspose? then TransposeOp(t) else UnaryOp(op, program.fp, t)
    {
      match op {
        case TTranspose =>
          if |t.shape| != 2 { return None; }
          var rows, cols := ToSize(t.shape[0]), ToSize(t.shape[1]);
          if |t.data| != rows * cols { return None; }
          var out := TransposeLoop(t.data, rows, cols);
          u := Some(TensorValue([ToSigned(cols), ToSigned(rows)], out));
        case TRoPE =>
          if |t.data| % 2 != 0 { return None; }
          var out := RotateLoop(t.data);
          u := Some(TensorValue(t.shape, out));
        case TSoftmax | TRMSNorm =>
          if t.data == [] { return None; }
          u := Some(TensorValue(t.shape, program.fp(op, t.data)));
        case TExp | TSqrt | TSiLU =>
          u := Some(TensorValue(t.shape, program.fp(op, t.data)));
      }
    }

    /** `intern_tensor`, then the handle goes to register a. */
    method InternTensorValue(i: Insn, t: TensorValue) returns (r: Status)
      requires Valid() && InFile(i.a) && !halted
      modifies this`tensorPool, this`currentWrite, this`flags, this`pc, this`trace, registers, registerTags
      ensures Valid() && r == Done
      ensures AsConfig() == Finish(program, old(AsConfig()), i, InternTensor(old(AsMachine()), i.a, Some(t))).c
    {
      tensorPool := tensorPool + [t];
      r := Complete(i, |tensorPool|, TensorHandle, None, axionLog);
    }

    method ExecuteBinaryTensor(i: Insn) returns (r: Status)
      requires Valid() && currentWrite == NO_WRITE && !halted && FamilyOf(i.opcode) == BinaryTensor
      requires !ExecBinaryTensor(AsMachine(), i).Undefined?
      modifies this`currentWrite, this`flags, this`pc, this`trace, this`lastTrapPayload, this`preloadTrap
      modifies this`tensorPool, registers, registerTags
      ensures Valid()
      ensures StepResult(AsConfig(), r) == Finish(program, old(AsConfig()), i, ExecBinaryTensor(old(AsMachine()), i))
    {
      if registerTags[i.b] != TensorHandle || registerTags[i.c] != TensorHandle {
        r := Fail(i, TypeFault, Unknown, "", None, axionLog);
        return;
      }
      var lhs, rhs := Entry(tensorPool, registers[i.b]), Entry(tensorPool, registers[i.c]);
      if lhs.None? || rhs.None? {
        r := Fail(i, DecodeFault, Unknown, "", None, axionLog);
        return;
      }
      var out := ComputeBinaryTensor(i.opcode, lhs.value, rhs.value);
      if out.None? {
        r := Fail(i, ShapeFault, Unknown, "", None, axionLog);
      } else {
        r := InternTensorValue(i, out.value);
      }
    }

    method ExecuteUnaryTensor(i: Insn) returns (r: Status)
      requires Valid() && currentWrite == NO_WRITE && !halted && FamilyOf(i.opcode) == UnaryTensor
      requires !ExecUnaryTensor(program, AsMachine(), i).Undefined?
      modifies this`currentWrite, this`flags, this`pc, this`trace, this`lastTrapPayload, this`preloadTrap
      modifies this`tensorPool, registers, registerTags
      ensures Valid()
      ensures StepResult(AsConfig(), r) ==
        Finish(program, old(AsConfig()), i, ExecUnaryTensor(program, old(AsMachine()), i))
    {
      if registerTags[i.b] != TensorHandle {
        r := Fail(i, TypeFault, Unknown, "", None, axionLog);
        return;
      }
      var t := Entry(tensorPool, registers[i.b]);
      if t.None? {
        r := Fail(i, DecodeFault, Unknown, "", None, axionLog);
        return;
      }
      var out := ComputeUnaryTensor(i.opcode, t.value);
      if out.None? {
        r := Fail(i, ShapeFault, Unknown, "", None, axionLog);
      } else {
        r := InternTensorValue(i, out.value);
      }
    }

    method ExecuteShapeCheck(i: Insn) returns (r: Status)
      requires Valid() && currentWrite == NO_WRITE && !halted && FamilyOf(i.opcode) == ShapeCheck
      requires !ExecShapeCheck(AsMachine(), i).Undefined?
      modifies this`currentWrite, this`flags, this`pc, this`trace, this`lastTrapPayload, this`preloadTrap
      modifies registers, registerTags
      ensures Valid()
      ensures StepResult(AsConfig(), r) == Finish(program, old(AsConfig()), i, ExecShapeCheck(old(AsMachine()), i))
    {
      if registerTags[i.b] != TensorHandle || registerTags[i.c] != ShapeHandle {
        r := Fail(i, TypeFault, Unknown, "", None, axionLog);
        return;
      }
      var t, s := Entry(tensorPool, registers[i.b]), Entry(shapePool, registers[i.c]);
      if t.None? || s.None? {
        r := Fail(i, DecodeFault, Unknown, "", None, axionLog);
      } else {
        r := Complete(i, if t.value.shape == s.value then 1 else 0, IntTag, None, axionLog);
      }
    }

    method InternOption(i: Insn, v: OptionValue) returns (r: Status)
      requires Valid() && InFile(i.a) && !halted
      modifies this`optionPool, this`currentWrite, this`flags, this`pc, this`trace, registers, registerTags
      ensures Valid() && r == Done
      ensures AsConfig() == Finish(program, old(AsConfig()), i,
                                   WriteBack(old(AsMachine()).(options := old(optionPool) + [v]), i.a,
                                             |old(optionPool)| + 1, OptionHandle, None)).c
    {
      optionPool := optionPool + [v];
      r := Complete(i, |optionPool|, OptionHandle, None, axionLog);
    }

    method InternResult(i: Insn, v: ResultValue) returns (r: Status)
      requires Valid() && InFile(i.a) && !halted
      modifies this`resultPool, this`currentWrite, this`flags, this`pc, this`trace, registers, registerTags
      ensures Valid() && r == Done
      ensures AsConfig() == Finish(program, old(AsConfig()), i,
                                   WriteBack(old(AsMachine()).(results := old(resultPool) + [v]), i.a,
                                             |old(resultPool)| + 1, ResultHandle, None)).c
    {
      resultPool := resultPool + [v];
      r := Complete(i, |resultPool|, ResultHandle, None, axionLog);
    }

    method InternEnum(i: Insn, v: EnumValue) returns (r: Status)
      requires Valid() && InFile(i.a) && !halted
      modifies this`enumPool, this`currentWrite, this`flags, this`pc, this`trace, registers, registerTags
      ensures Valid() && r == Done
      ensures AsConfig() == Finish(program, old(AsConfig()), i,
                                   WriteBack(old(AsMachine()).(enums := old(enumPool) + [v]), i.a,
                                             |old(enumPool)| + 1, EnumHandle, None)).c
    {
      enumPool := enumPool + [v];
      r := Complete(i, |enumPool|, EnumHandle, None, axionLog);
    }

    method ExecuteMake(i: Insn) returns (r: Status)
      requires Valid() && currentWrite == NO_WRITE && !halted && FamilyOf(i.opcode) == Make
      requires !ExecMake(AsMachine(), i).Undefined?
      modifies this`currentWrite, this`flags, this`pc, this`trace, this`lastTrapPayload, this`preloadTrap
      modifies this`optionPool, this`resultPool, this`enumPool, registers, registerTags
      ensures Valid()
      ensures StepResult(AsConfig(), r) == Finish(program, old(AsConfig()), i, ExecMake(old(AsMachine()), i))
    {
      match i.opcode {
        case MakeOptionSome =>
          r := InternOption(i, OptionValue(true, registerTags[i.b], registers[i.b]));
        case MakeOptionNone =>
          r := InternOption(i, OptionValue(false, IntTag, 0));
        case MakeResultOk =>
          r := InternResult(i, ResultValue(true, registerTags[i.b], registers[i.b]));
        case MakeResultErr =>
          r := InternResult(i, ResultValue(false, registerTags[i.b], registers[i.b]));
        case MakeEnumVariant =>
          r := InternEnum(i, EnumValue(i.b, false, IntTag, 0));
        case MakeEnumVariantPayload =>
          if i.c < 0 {
            r := Fail(i, DecodeFault, Unknown, "", None, axionLog);
          } else {
            r := InternEnum(i, EnumValue(i.c, true, registerTags[i.b], registers[i.b]));
          }
      }
    }

    method ExecuteInspect(i: Insn) returns (r: Status)
      requires Valid() && currentWrite == NO_WRITE && !halted && FamilyOf(i.opcode) == Inspect
      requires !ExecInspect(AsMachine(), i).Undefined?
      modifies this`currentWrite, this`flags, this`pc, this`trace, this`lastTrapPayload, this`preloadTrap
      modifies registers, registerTags
      ensures Valid()
      ensures StepResult(AsConfig(), r) == Finish(program, old(AsConfig()), i, ExecInspect(old(AsMachine()), i))
    {
      if registerTags[i.b] != HandleTag(i.opcode) {
        r := Fail(i, TypeFault, Unknown, "", None, axionLog);
        return;
      }
      var found := LookUp(i, registers[i.b]);
      if found.None? {
        r := Fail(i, DecodeFault, Unknown, "", None, axionLog);
      } else {
        r := Complete(i, found.value.0, found.value.1, None, axionLog);
      }
    }

    /** The pool entry under handle `h`, as instruction `i` sees it. */
    method LookUp(i: Insn, h: int) returns (found: Option<(int, Tag)>)
      requires Valid() && FamilyOf(i.opcode) == Inspect
      ensures found == Inspected(AsMachine(), i, h)
    {
      match i.opcode {
        case OptionIsSome =>
          var o := Entry(optionPool, h);
          return if o.None? then None else Some((if o.value.hasValue then 1 else 0, IntTag));
        case OptionUnwrap =>
          var o := Entry(optionPool, h);
          return if o.None? || !o.value.hasValue then None else Some((o.value.payload, o.value.payloadTag));
        case ResultIsOk =>
          var v := Entry(resultPool, h);
          return if v.None? then None else Some((if v.value.isOk then 1 else 0, IntTag));
        case ResultUnwrapOk =>
          var v := Entry(resultPool, h);
          return if v.None? || !v.value.isOk then None else Some((v.value.payload, v.value.payloadTag));
        case ResultUnwrapErr =>
          var v := Entry(resultPool, h);
          return if v.None? || v.value.isOk then None else Some((v.value.payload, v.value.payloadTag));
        case EnumIsVariant =>
          var e := Entry(enumPool, h);
          return if e.None? then None else Some((if e.value.variantId == i.c then 1 else 0, IntTag));
        case EnumUnwrapPayload =>
          var e := Entry(enumPool, h);
          return if e.None? || !e.value.hasPayload then None else Some((e.value.payload, e.value.payloadTag));
      }
    }

    /** Both allocators return the address in register a without touching the flags. */
    method ReturnAddress(i: Insn, addr: nat) returns (r: Status)
      requires Valid() && InFile(i.a)
      modifies this`currentWrite, this`axionLog, this`pc, this`trace, registers, registerTags
      ensures r == Done && pc == old(pc) + 1
      ensures registers[..] == old(registers[..])[i.a := addr]
      ensures registerTags[..] == old(registerTags[..])[i.a := IntTag]
      ensures currentWrite == Recorded(i.a, addr, IntTag)
      ensures axionLog == old(axionLog) + [AxionEvent(i.opcode, FrameChange)]
      ensures trace == old(trace) + [TraceEntry(old(pc), i.opcode, currentWrite, None)]
    {
      SetRegisterValue(i.a, addr, IntTag);
      Log(i.opcode, FrameChange);
      r := Advance(i, pc + 1);
    }

    method PushFrame(i: Insn) returns (r: Status)
      requires Valid() && InFile(i.a) && 0 < i.b <= sp
      modifies this`sp, this`stackFrames, this`currentWrite, this`axionLog, this`pc, this`trace, registers, registerTags
      ensures sp == old(sp) - i.b && stackFrames == old(stackFrames) + [Block(sp, i.b)]
      ensures r == Done && pc == old(pc) + 1
      ensures registers[..] == old(registers[..])[i.a := sp]
      ensures registerTags[..] == old(registerTags[..])[i.a := IntTag]
      ensures currentWrite == Recorded(i.a, sp, IntTag)
      ensures axionLog == old(axionLog) + [AxionEvent(i.opcode, FrameChange)]
      ensures trace == old(trace) + [TraceEntry(old(pc), i.opcode, currentWrite, None)]
    {
      sp := sp - i.b;
      stackFrames := stackFrames + [Block(sp, i.b)];
      r := ReturnAddress(i, sp);
    }

    method CommitStackAlloc(i: Insn) returns (r: Status)
      requires Valid() && currentWrite == NO_WRITE && !halted && ExecStackAlloc(AsMachine(), i).Commit?
      modifies this`sp, this`stackFrames, this`currentWrite, this`axionLog, this`pc, this`trace
      modifies registers, registerTags
      ensures Valid() && r == Done
      ensures AsConfig() == Finish(program, old(AsConfig()), i, ExecStackAlloc(old(AsMachine()), i)).c
    {
      r := PushFrame(i);
    }

    method ExecuteStackAlloc(i: Insn) returns (r: Status)
      requires Valid() && currentWrite == NO_WRITE && !halted
      requires !ExecStackAlloc(AsMachine(), i).Undefined?
      modifies this`currentWrite, this`flags, this`pc, this`trace, this`lastTrapPayload, this`preloadTrap
      modifies this`axionLog, this`sp, this`stackFrames, registers, registerTags
      ensures Valid()
      ensures StepResult(AsConfig(), r) == Finish(program, old(AsConfig()), i, ExecStackAlloc(old(AsMachine()), i))
    {
      ghost var before := axionLog;
      if i.b <= 0 {
        r := Fail(i, StackFault, Stack, "invalid stack alloc size", None, before);
      } else if i.b > sp || sp - i.b < layout.stack.start {
        Log(i.opcode, BoundsReport(Stack, i.b));
        r := Fail(i, StackFault, Stack, "stack frame allocate", Some(BoundsReport(Stack, i.b)), before);
      } else {
        r := CommitStackAlloc(i);
      }
    }

    /** Both deallocators report the change and go on. */
    method ReportFree(i: Insn) returns (r: Status)
      modifies this`axionLog, this`pc, this`trace
      ensures r == Done && pc == old(pc) + 1 && axionLog == old(axionLog) + [AxionEvent(i.opcode, FrameChange)]
      ensures trace == old(trace) + [TraceEntry(old(pc), i.opcode, currentWrite, None)]
    {
      Log(i.opcode, FrameChange);
      r := Advance(i, pc + 1);
    }

    method PopFrame(i: Insn) returns (r: Status)
      requires stackFrames != []
      modifies this`sp, this`stackFrames, this`axionLog, this`pc, this`trace
      ensures sp == old(sp) + old(stackFrames)[|old(stackFrames)| - 1].size
      ensures stackFrames == old(stackFrames)[..|old(stackFrames)| - 1]
      ensures r == Done && pc == old(pc) + 1 && axionLog == old(axionLog) + [AxionEvent(i.opcode, FrameChange)]
      ensures trace == old(trace) + [TraceEntry(old(pc), i.opcode, currentWrite, None)]
    {
      var top := stackFrames[|stackFrames| - 1];
      stackFrames := stackFrames[..|stackFrames| - 1];
      sp := sp + top.size;
      r := ReportFree(i);
    }

    method CommitStackFree(i: Insn) returns (r: Status)
      requires Valid() && currentWrite == NO_WRITE && !halted && stackFrames != []
      modifies this`sp, this`stackFrames, this`axionLog, this`pc, this`trace
      ensures Valid() && r == Done
      ensures AsConfig() == Finish(program, old(AsConfig()), i, FreeFrame(old(AsMachine()))).c
    {
      r := PopFrame(i);
    }

    method ExecuteStackFree(i: Insn) returns (r: Status)
      requires Valid() && currentWrite == NO_WRITE && !halted
      requires !ExecStackFree(AsMachine(), i).Undefined?
      modifies this`currentWrite, this`flags, this`pc, this`trace, this`lastTrapPayload, this`preloadTrap
      modifies this`axionLog, this`sp, this`stackFrames
      ensures Valid()
      ensures StepResult(AsConfig(), r) == Finish(program, old(AsConfig()), i, ExecStackFree(old(AsMachine()), i))
    {
      if stackFrames == [] {
        r := Fail(i, StackFault, Stack, "stack frame free empty", None, axionLog);
        return;
      }
      var top := stackFrames[|stackFrames| - 1];
      if ToSize(registers[i.a]) != top.base || Requested(i) != top.size {
        r := Fail(i, StackFault, Stack, "stack frame free mismatch", None, axionLog);
      } else {
        r := CommitStackFree(i);
      }
    }

    method PushBlock(i: Insn) returns (r: Status)
      requires Valid() && InFile(i.a) && 0 < i.b
      modifies this`heapPtr, this`heapFrames, this`currentWrite, this`axionLog, this`pc, this`trace
      modifies registers, registerTags
      ensures heapPtr == old(heapPtr) + i.b && heapFrames == old(heapFrames) + [Block(old(heapPtr), i.b)]
      ensures r == Done && pc == old(pc) + 1
      ensures registers[..] == old(registers[..])[i.a := old(heapPtr)]
      ensures registerTags[..] == old(registerTags[..])[i.a := IntTag]
      ensures currentWrite == Recorded(i.a, old(heapPtr), IntTag)
      ensures axionLog == old(axionLog) + [AxionEvent(i.opcode, FrameChange)]
      ensures trace == old(trace) + [TraceEntry(old(pc), i.opcode, currentWrite, None)]
    {
      var addr := heapPtr;
      heapPtr := heapPtr + i.b;
      heapFrames := heapFrames + [Block(addr, i.b)];
      r := ReturnAddress(i, addr);
    }

    method CommitHeapAlloc(i: Insn) returns (r: Status)
      requires Valid() && currentWrite == NO_WRITE && !halted && ExecHeapAlloc(AsMachine(), i).Commit?
      modifies this`heapPtr, this`heapFrames, this`currentWrite, this`axionLog, this`pc, this`trace
      modifies registers, registerTags
      ensures Valid() && r == Done
      ensures AsConfig() == Finish(program, old(AsConfig()), i, ExecHeapAlloc(old(AsMachine()), i)).c
    {
      r := PushBlock(i);
    }

    method ExecuteHeapAlloc(i: Insn) returns (r: Status)
      requires Valid() && currentWrite == NO_WRITE && !halted
      requires !ExecHeapAlloc(AsMachine(), i).Undefined?
      modifies this`currentWrite, this`flags, this`pc, this`trace, this`lastTrapPayload, this`preloadTrap
      modifies this`axionLog, this`heapPtr, this`heapFrames, registers, registerTags
      ensures Valid()
      ensures StepResult(AsConfig(), r) == Finish(program, old(AsConfig()), i, ExecHeapAlloc(old(AsMachine()), i))
    {
      ghost var before := axionLog;
      if i.b <= 0 {
        r := Fail(i, DecodeFault, Heap, "invalid heap alloc size", None, before);
      } else if heapPtr + i.b > layout.heap.limit {
        Log(i.opcode, BoundsReport(Heap, i.b));
        r := Fail(i, BoundsFault, Heap, "heap block allocate", Some(BoundsReport(Heap, i.b)), before);
      } else {
        r := CommitHeapAlloc(i);
      }
    }

    method PopBlock(i: Insn) returns (r: Status)
      requires heapFrames != []
      modifies this`heapPtr, this`heapFrames, this`axionLog, this`pc, this`trace
      ensures heapPtr == old(heapFrames)[|old(heapFrames)| - 1].base
      ensures heapFrames == old(heapFrames)[..|old(heapFrames)| - 1]
      ensures r == Done && pc == old(pc) + 1 && axionLog == old(axionLog) + [AxionEvent(i.opcode, FrameChange)]
      ensures trace == old(trace) + [TraceEntry(old(pc), i.opcode, currentWrite, None)]
    {
      var top := heapFrames[|heapFrames| - 1];
      heapFrames := heapFrames[..|heapFrames| - 1];
      heapPtr := top.base;
      r := ReportFree(i);
    }

    method CommitHeapFree(i: Insn) returns (r: Status)
      requires Valid() && currentWrite == NO_WRITE && !halted && heapFrames != []
      modifies this`heapPtr, this`heapFrames, this`axionLog, this`pc, this`trace
      ensures Valid() && r == Done
      ensures AsConfig() == Finish(program, old(AsConfig()), i, FreeBlock(old(AsMachine()))).c
    {
      r := PopBlock(i);
    }

    method ExecuteHeapFree(i: Insn) returns (r: Status)
      requires Valid() && currentWrite == NO_WRITE && !halted
      requires !ExecHeapFree(AsMachine(), i).Undefined?
      modifies this`currentWrite, this`flags, this`pc, this`trace, this`lastTrapPayload, this`preloadTrap
      modifies this`axionLog, this`heapPtr, this`heapFrames
      ensures Valid()
      ensures StepResult(AsConfig(), r) == Finish(program, old(AsConfig()), i, ExecHeapFree(old(AsMachine()), i))
    {
      if heapFrames == [] {
        r := Fail(i, DecodeFault, Heap, "heap block free empty", None, axionLog);
        return;
      }
      var top := heapFrames[|heapFrames| - 1];
      if ToSize(registers[i.a]) != top.base || Requested(i) != top.size {
        r := Fail(i, DecodeFault, Heap, "heap block free mismatch", None, axionLog);
      } else {
        r := CommitHeapFree(i);
      }
    }

    method ExecuteFrames(i: Insn) returns (r: Status)
      requires Valid() && currentWrite == NO_WRITE && !halted && FamilyOf(i.opcode) == Frames
      requires !ExecFrames(AsMachine(), i).Undefined?
      modifies this`currentWrite, this`flags, this`pc, this`trace, this`lastTrapPayload, this`preloadTrap
      modifies this`axionLog, this`sp, this`stackFrames, this`heapPtr, this`heapFrames, registers, registerTags
      ensures Valid()
      ensures StepResult(AsConfig(), r) == Finish(program, old(AsConfig()), i, ExecFrames(old(AsMachine()), i))
    {
      match i.opcode {
        case StackAlloc => r := ExecuteStackAlloc(i);
        case StackFree => r := ExecuteStackFree(i);
        case HeapAlloc => r := ExecuteHeapAlloc(i);
        case HeapFree => r := ExecuteHeapFree(i);
      }
    }

    method Execute(i: Insn) returns (r: Status)
      requires Valid() && currentWrite == NO_WRITE && !halted && !Exec(program, AsMachine(), i).Undefined?
      modifies this`currentWrite, this`flags, this`pc, this`trace, this`lastTrapPayload, this`preloadTrap
      modifies this`axionLog, this`callStack, this`halted, this`sp, this`stackFrames, this`heapPtr, this`heapFrames
      modifies this`optionPool, this`resultPool, this`enumPool, this`tensorPool, registers, registerTags, memory
      ensures Valid()
      ensures StepResult(AsConfig(), r) == Finish(program, old(AsConfig()), i, Exec(program, old(AsMachine()), i))
    {
      match FamilyOf(i.opcode) {
        case Arithmetic => r := ExecuteArithmetic(i);
        case Comparison => r := ExecuteComparison(i);
        case TritLogic => r := ExecuteTritLogic(i);
        case Move => r := ExecuteMove(i);
        case Adjust => r := ExecuteAdjust(i);
        case Memory => r := ExecuteMemory(i);
        case Control => r := ExecuteControl(i);
        case Axion => r := ExecuteAxion(i);
        case BinaryTensor => r := ExecuteBinaryTensor(i);
        case UnaryTensor => r := ExecuteUnaryTensor(i);
        case ShapeCheck => r := ExecuteShapeCheck(i);
        case Make => r := ExecuteMake(i);
        case Inspect => r := ExecuteInspect(i);
        case Frames => r := ExecuteFrames(i);
        case Illegal => r := Fail(i, DecodeFault, Unknown, "", None, axionLog);
      }
    }

    // ----- The public operations. -----

    method CountStep()
      modifies this`currentWrite, this`steps, this`gcCycles
      ensures currentWrite == NO_WRITE && steps == old(steps) + 1
      ensures gcCycles == if steps % GC_INTERVAL == 0 then old(gcCycles) + 1 else old(gcCycles)
    {
      currentWrite := NO_WRITE;
      steps := steps + 1;
      if steps % GC_INTERVAL == 0 { gcCycles := gcCycles + 1; }
    }

    /** Clear the write record and count the step. */
    method Fetch()
      requires Valid()
      modifies this`currentWrite, this`steps, this`gcCycles
      ensures Valid() && AsConfig() == Fetched(old(AsConfig()))
    {
      CountStep();
    }

    /** A trap before any instruction is executed. */
    method Refuse(t: Trap, opcode: Opcode) returns (r: Status)
      requires Valid()
      modifies this`lastTrapPayload, this`trace, this`preloadTrap
      ensures Valid() && r == Trapped(t)
      ensures AsConfig() == Raise(program, old(AsConfig()), t, opcode, pc, Unknown, "")
    {
      r := RaiseTrap(t, opcode, pc, Unknown, "");
    }

    method Step() returns (r: Status)
      requires Valid() && !Semantics.Step(program, AsConfig()).status.UndefinedBehaviour?
      modifies this, registers, registerTags, memory
      ensures Valid() && program == old(program) && memory == old(memory)
      ensures StepResult(AsConfig(), r) == Semantics.Step(program, old(AsConfig()))
    {
      if halted {
        r := Done;
      } else if preloadTrap.Some? {
        r := Refuse(preloadTrap.value, CurrentOpcode(program, pc));
      } else if pc >= |program.insns| {
        r := Refuse(DecodeFault, Nop);
      } else {
        var i := program.insns[pc];
        Fetch();
        r := Execute(i);
      }
    }

    /** `run_to_halt`; the source reports `OutOfBudget` as a `TrapInstruction` error. */
    method RunToHalt(maxSteps: nat) returns (r: RunStatus)
      requires Valid() && !Semantics.RunToHalt(program, AsConfig(), maxSteps).status.RanUndefined?
      modifies this, registers, registerTags, memory
      ensures Valid() && program == old(program) && memory == old(memory)
      ensures RunResult(AsConfig(), r) == Semantics.RunToHalt(program, old(AsConfig()), maxSteps)
    {
      hide Exec;
      ghost var goal := Semantics.RunToHalt(program, AsConfig(), maxSteps);
      for n := 0 to maxSteps
        invariant Valid() && program == old(program) && memory == old(memory)
        invariant goal == Semantics.RunToHalt(program, AsConfig(), maxSteps - n) && !goal.status.RanUndefined?
      {
        RunToHaltUnfolds(program, AsConfig(), maxSteps - n, Semantics.Step(program, AsConfig()));
        var res := Step();
        if res.Trapped? { return Stopped(res.trap); }
        if halted { return Halted; }
      }
      r := OutOfBudget;
    }
  }
}
