/** Which trap a step raises, read off the configuration before it, and what the trap payload then says. */
module TrapCodes {
  import opened Options
  import opened Isa
  import opened State
  import opened Loader
  import opened Semantics
  import opened Effects
  import opened Allocators
  import opened Handles
  import opened HeapTiling
  import opened Histories
  import opened Overflow
  import opened Safety
  import opened StackDiscipline

  // ----- The causes. -----

  predicate Divides(op: Opcode) { op.Div? || op.Mod? || op.FDiv? || op.FracDiv? }

  /** An address outside the memory, or a block that does not fit the heap. */
  predicate OutOfBounds(m: Machine, i: Insn) {
    match i.opcode
    case Load => !(0 <= i.b < |m.mem|)
    case Store => !(0 <= i.a < |m.mem|)
    case HeapAlloc => i.b > 0 && m.heapPtr + i.b > m.layout.heap.limit
    case _ => false
  }

  /** A full or empty stack, a frame of no size or too large, a free that does not name the newest frame. */
  predicate StackRefuses(m: Machine, i: Insn) {
    match i.opcode
    case Push => m.sp == m.layout.stack.start
    case Pop => m.sp >= m.layout.stack.limit
    case Ret => m.calls == []
    case StackAlloc => i.b <= 0 || m.sp - i.b < m.layout.stack.start
    case StackFree => InFile(i.a) && (m.stackFrames == [] || !Names(m, i, m.stackFrames[|m.stackFrames| - 1]))
    case _ => false
  }

  /** Register b, or register c of a tensor instruction with two sources, does not carry the tag it should. */
  predicate Mistagged(m: Machine, i: Insn)
    requires InFile(i.b) && (FamilyOf(i.opcode) == BinaryTensor || FamilyOf(i.opcode) == ShapeCheck ==> InFile(i.c))
  {
    match i.opcode
    case OptionIsSome | OptionUnwrap => m.tags[i.b] != OptionHandle
    case ResultIsOk | ResultUnwrapOk | ResultUnwrapErr => m.tags[i.b] != ResultHandle
    case EnumIsVariant | EnumUnwrapPayload => m.tags[i.b] != EnumHandle
    case TTranspose | TExp | TSqrt | TSiLU | TSoftmax | TRMSNorm | TRoPE => m.tags[i.b] != TensorHandle
    case TVecAdd | TVecMul | TMatMul | TTenDot => m.tags[i.b] != TensorHandle || m.tags[i.c] != TensorHandle
    case ChkShape => m.tags[i.b] != TensorHandle || m.tags[i.c] != ShapeHandle
    case _ => false
  }

  /** The handle names no entry, or the entry is not the variant that an unwrap wants. */
  predicate Absent(m: Machine, i: Insn, h: int) {
    match i.opcode
    case OptionIsSome => !(1 <= h <= |m.options|)
    case OptionUnwrap => !(1 <= h <= |m.options| && m.options[h - 1].hasValue)
    case ResultIsOk => !(1 <= h <= |m.results|)
    case ResultUnwrapOk => !(1 <= h <= |m.results| && m.results[h - 1].isOk)
    case ResultUnwrapErr => !(1 <= h <= |m.results| && !m.results[h - 1].isOk)
    case EnumIsVariant => !(1 <= h <= |m.enums|)
    case EnumUnwrapPayload => !(1 <= h <= |m.enums| && m.enums[h - 1].hasPayload)
    case _ => true
  }

  predicate UsesTags(i: Insn) {
    FamilyOf(i.opcode) in {BinaryTensor, UnaryTensor, ShapeCheck, Inspect} && InFile(i.b)
    && (FamilyOf(i.opcode) == BinaryTensor || FamilyOf(i.opcode) == ShapeCheck ==> InFile(i.c))
  }

  /** A target outside the program, a negative variant, a block of no size, a wrong free, a handle to nothing. */
  predicate Undecodable(p: Image, m: Machine, i: Insn) {
    match i.opcode
    case Call => InFile(i.a) && !(0 <= m.regs[i.a] < |p.insns|)
    case MakeEnumVariantPayload => i.c < 0
    case HeapAlloc => i.b <= 0
    case HeapFree => InFile(i.a) && (m.heapFrames == [] || !Names(m, i, m.heapFrames[|m.heapFrames| - 1]))
    case _ => UsesTags(i) && !Mistagged(m, i) && Absent(m, i, m.regs[i.b])
  }

  /** The cause of each trap: an instruction of a validated program raises it for this reason and no other. */
  predicate Causes(t: Trap, p: Image, m: Machine, i: Insn) {
    match t
    case DivisionFault => Divides(i.opcode) && InFile(i.c) && m.regs[i.c] == 0
    case BoundsFault => OutOfBounds(m, i)
    case StackFault => StackRefuses(m, i)
    case SecurityFault => (i.opcode.AxRead? || i.opcode.AxSet? || i.opcode.AxVerify?) && p.tier == Some(0)
    case TypeFault => UsesTags(i) && Mistagged(m, i)
    case DecodeFault => Undecodable(p, m, i)
    case TrapInstruction => i.opcode.TrapOp?
    case ShapeFault | NoTrap => false
  }

  // ----- One instruction. -----

  /** What every reachable machine is like. */
  ghost predicate Settled(p: Image, m: Machine) {
    && NoTensors(m) && m.policy == p.tier && m.layout.stack.start <= m.sp
    && forall addr: int :: ValidMem(m, addr) <==> 0 <= addr < |m.mem|
  }

  predicate Exactly(t: Trap, p: Image, m: Machine, i: Insn, o: Outcome) {
    (o.Fault? && o.trap == t) <==> Causes(t, p, m, i)
  }

  lemma ArithmeticCauses(t: Trap, p: Image, m: Machine, i: Insn)
    requires InsnOk(p, i) && FamilyOf(i.opcode) == Arithmetic
    ensures Exactly(t, p, m, i, ExecArithmetic(m, i))
  {
    hide Overflows, Calculate;
  }

  lemma ScalarCauses(t: Trap, p: Image, m: Machine, i: Insn)
    requires InsnOk(p, i) && FamilyOf(i.opcode) in {Comparison, TritLogic, Move, Adjust}
    ensures Exactly(t, p, m, i, Exec(p, m, i))
  {
    hide Compare, Trit;
  }

  lemma MemoryCauses(t: Trap, p: Image, m: Machine, i: Insn)
    requires InsnOk(p, i) && FamilyOf(i.opcode) == Memory && Settled(p, m)
    ensures Exactly(t, p, m, i, Exec(p, m, i))
  {
  }

  lemma ControlCauses(t: Trap, p: Image, m: Machine, i: Insn)
    requires InsnOk(p, i) && FamilyOf(i.opcode) == Control
    ensures Exactly(t, p, m, i, ExecControl(p, m, i))
  {
  }

  lemma ControlCommit(p: Image, m: Machine, i: Insn)
    requires FamilyOf(i.opcode) == Control
    ensures Exec(p, m, i) == ExecControl(p, m, i)
  {
  }

  lemma AxionCauses(t: Trap, p: Image, m: Machine, i: Insn)
    requires InsnOk(p, i) && FamilyOf(i.opcode) == Axion && Settled(p, m)
    ensures Exactly(t, p, m, i, Exec(p, m, i))
  {
    hide GuardSegment;
  }

  lemma FrameCauses(t: Trap, p: Image, m: Machine, i: Insn)
    requires InsnOk(p, i) && FamilyOf(i.opcode) == Frames
    ensures Exactly(t, p, m, i, Exec(p, m, i))
  {
  }

  lemma MakeCauses(t: Trap, p: Image, m: Machine, i: Insn)
    requires InsnOk(p, i) && FamilyOf(i.opcode) == Make
    ensures Exactly(t, p, m, i, ExecMake(m, i))
  {
  }

  lemma InspectCauses(t: Trap, p: Image, m: Machine, i: Insn)
    requires InsnOk(p, i) && FamilyOf(i.opcode) == Inspect
    ensures Exactly(t, p, m, i, ExecInspect(m, i))
  {
  }

  lemma TensorCauses(t: Trap, p: Image, m: Machine, i: Insn)
    requires InsnOk(p, i) && FamilyOf(i.opcode) in {BinaryTensor, UnaryTensor, ShapeCheck} && Settled(p, m)
    ensures Exactly(t, p, m, i, Exec(p, m, i))
  {
  }

  lemma InsnCauses(t: Trap, p: Image, m: Machine, i: Insn)
    requires InsnOk(p, i) && FamilyOf(i.opcode) != Illegal && Settled(p, m)
    ensures Exactly(t, p, m, i, Exec(p, m, i))
  {
    hide Exec, Exactly, InsnOk, Settled;
    match FamilyOf(i.opcode) {
      case Arithmetic =>
        ArithmeticCommit(p, m, i);
        ArithmeticCauses(t, p, m, i);
      case Comparison | TritLogic | Move | Adjust => ScalarCauses(t, p, m, i);
      case Memory => MemoryCauses(t, p, m, i);
      case Control =>
        ControlCommit(p, m, i);
        ControlCauses(t, p, m, i);
      case Axion => AxionCauses(t, p, m, i);
      case Frames => FrameCauses(t, p, m, i);
      case Make =>
        MakeCommit(p, m, i);
        MakeCauses(t, p, m, i);
      case Inspect =>
        InspectCommit(p, m, i);
        InspectCauses(t, p, m, i);
      case BinaryTensor | UnaryTensor | ShapeCheck => TensorCauses(t, p, m, i);
    }
  }

  // ----- Reachable configurations. -----

  /** With no preload trap to begin with there never is one, and the policy never changes. */
  lemma {:induction false} NothingPends(p: Image, stale: Write, acts: seq<Action>)
    requires Validate(p).None?
    ensures var c := Reached(p, stale, acts); c.preload.None? && c.m.policy == p.tier
  {
    hide Exec, Validate;
    if acts == [] {
    } else {
      var front := acts[..|acts| - 1];
      NothingPends(p, stale, front);
      StepMachine(p, Reached(p, stale, front));
    }
  }

  lemma ReachedSettled(p: Image, stale: Write, acts: seq<Action>)
    requires Validate(p).None?
    ensures Settled(p, Reached(p, stale, acts).m)
  {
    hide Step, Reached, ValidMem;
    var m := Reached(p, stale, acts).m;
    NothingPends(p, stale, acts);
    TensorInsnsNeverCommit(p, stale, acts);
    StackIsConserved(p, stale, acts);
    forall addr: int
      ensures ValidMem(m, addr) <==> 0 <= addr < |m.mem|
    {
      ValidMemIff(p, stale, acts, addr);
    }
  }

  /**
   Traps, exactly: in a reachable configuration of a validated program a step raises a given trap if and only if the
   cause of that trap is there. Running off the end is a DecodeFault, and a halted machine raises nothing.
   */
  lemma TrapIff(t: Trap, p: Image, stale: Write, acts: seq<Action>)
    requires Validate(p).None?
    ensures var c := Reached(p, stale, acts);
      Step(p, c).status == Trapped(t) <==>
        && !c.m.halted
        && if c.m.pc >= |p.insns| then t == DecodeFault else Causes(t, p, c.m, p.insns[c.m.pc])
  {
    hide Exec, Reached, InsnOk, Validate, Causes, Settled;
    var c := Reached(p, stale, acts);
    NothingPends(p, stale, acts);
    if Executing(p, c) {
      ReachedSettled(p, stale, acts);
      ValidatedInsn(p, c.m.pc);
      InsnCauses(t, p, c.m, Current(p, c));
      StepStatus(p, c);
    }
  }

  /**
   How a step ends, exactly: a step of a validated program is trap-free if and only if the machine has halted, or there
   is an instruction, no trap has its cause, and neither the stack pointer, operand b nor arithmetic is out of range.
   */
  lemma DoneIff(p: Image, stale: Write, acts: seq<Action>)
    requires Validate(p).None? && Typed(p) && ActsTyped(acts) && Feasible(p, acts)
    ensures var c := Reached(p, stale, acts);
      Step(p, c).status.Done? <==>
        || c.m.halted
        || (&& c.m.pc < |p.insns| && (forall t :: !Causes(t, p, c.m, p.insns[c.m.pc]))
            && !OverrunsAt(p, c) && !UncheckedAt(p, c) && !OverflowsAt(p, c))
  {
    hide Step, Reached, Validate, Causes, Typed, ActsTyped, Feasible, OverrunsAt, UncheckedAt, OverflowsAt;
    var c := Reached(p, stale, acts);
    UndefinedIff(p, stale, acts);
    if c.m.halted { HaltedEnds(p, c); }
    forall t
      ensures Step(p, c).status == Trapped(t) <==>
        !c.m.halted && if c.m.pc >= |p.insns| then t == DecodeFault else Causes(t, p, c.m, p.insns[c.m.pc])
    {
      TrapIff(t, p, stale, acts);
    }
    match Step(p, c).status {
      case Done => assert Step(p, c).status != Trapped(DecodeFault);
      case Trapped(t) => assert Step(p, c).status == Trapped(t);
      case UndefinedBehaviour(h) => match h { case RegisterIndex => case MemoryIndex => case SignedOverflow => }
    }
  }

  /** An opcode outside the enumeration, which only a rejected program holds, is a DecodeFault. */
  lemma UnlistedTraps(p: Image, c: Config)
    requires Executing(p, c) && Current(p, c).opcode.Unlisted?
    ensures Step(p, c).status == Trapped(DecodeFault)
  {
    hide Exec;
    UnlistedFaults(p, c.m, Current(p, c));
    StepStatus(p, c);
  }

  lemma UnlistedFaults(p: Image, m: Machine, i: Insn)
    requires i.opcode.Unlisted?
    ensures Exec(p, m, i) == PlainFault(DecodeFault)
  {
  }

  lemma HaltedEnds(p: Image, c: Config)
    requires c.m.halted
    ensures Step(p, c).status.Done?
  {
  }

  // ----- The payload. -----

  /** What a trap blames: a segment and a phrase. */
  function Blame(m: Machine, i: Insn): (Segment, string) {
    match i.opcode
    case Load => (Unknown, "memory load")
    case Store => (Unknown, "memory store")
    case Push => (Stack, "stack push")
    case Pop => (Stack, "stack pop")
    case Div | Mod | FDiv | FracDiv => (Unknown, "division by zero")
    case AxRead => (if i.b >= 0 then SegmentOf(m.layout, i.b) else Unknown, "axion deny read")
    case AxSet =>
      (if InFile(i.a) && m.regs[i.a] >= 0 then SegmentOf(m.layout, m.regs[i.a]) else Unknown, "axion deny set")
    case AxVerify => (Meta, "axion deny verify")
    case StackAlloc => (Stack, if i.b <= 0 then "invalid stack alloc size" else "stack frame allocate")
    case StackFree => (Stack, if m.stackFrames == [] then "stack frame free empty" else "stack frame free mismatch")
    case HeapAlloc => (Heap, if i.b <= 0 then "invalid heap alloc size" else "heap block allocate")
    case HeapFree => (Heap, if m.heapFrames == [] then "heap block free empty" else "heap block free mismatch")
    case _ => (Unknown, "")
  }

  predicate Blames(m: Machine, i: Insn, o: Outcome) {
    o.Fault? ==> (o.segment, o.detail) == Blame(m, i)
  }

  lemma ScalarBlames(p: Image, m: Machine, i: Insn)
    requires FamilyOf(i.opcode) in {Arithmetic, Comparison, TritLogic, Move, Adjust, Control, Illegal}
    ensures Blames(m, i, Exec(p, m, i))
  {
    hide Calculate, Overflows, Compare, Trit;
  }

  lemma MemoryBlames(p: Image, m: Machine, i: Insn)
    requires FamilyOf(i.opcode) == Memory
    ensures Blames(m, i, Exec(p, m, i))
  {
  }

  lemma AxionBlames(p: Image, m: Machine, i: Insn)
    requires FamilyOf(i.opcode) == Axion
    ensures Blames(m, i, Exec(p, m, i))
  {
  }

  lemma FrameBlames(p: Image, m: Machine, i: Insn)
    requires FamilyOf(i.opcode) == Frames
    ensures Blames(m, i, Exec(p, m, i))
  {
  }

  lemma PoolBlames(p: Image, m: Machine, i: Insn)
    requires FamilyOf(i.opcode) in {BinaryTensor, UnaryTensor, ShapeCheck, Make, Inspect}
    ensures Blames(m, i, Exec(p, m, i))
  {
    hide BinaryTensorValue, Inspected;
  }

  lemma InsnBlames(p: Image, m: Machine, i: Insn)
    ensures Blames(m, i, Exec(p, m, i))
  {
    hide Exec, Blames;
    match FamilyOf(i.opcode) {
      case Arithmetic | Comparison | TritLogic | Move | Adjust | Control | Illegal => ScalarBlames(p, m, i);
      case Memory => MemoryBlames(p, m, i);
      case Axion => AxionBlames(p, m, i);
      case Frames => FrameBlames(p, m, i);
      case BinaryTensor | UnaryTensor | ShapeCheck | Make | Inspect => PoolBlames(p, m, i);
    }
  }

  /**
   The payload names the trap, the place, the instruction with its three operands, and what is to blame. Off the end
   of the program there is no instruction to name, and the operands are zero.
   */
  lemma PayloadSays(p: Image, c: Config)
    requires Step(p, c).status.Trapped? && c.preload.None?
    ensures var t := Step(p, c).status.trap;
      Step(p, c).c.payload == Some(
        if c.m.pc < |p.insns| then
          var i := p.insns[c.m.pc];
          var (segment, detail) := Blame(c.m, i);
          TrapPayload(t, c.m.pc, i.opcode, i.a, i.b, i.c, segment, detail)
        else TrapPayload(t, c.m.pc, Nop, 0, 0, 0, Unknown, ""))
  {
    hide Exec, Blame;
    if c.m.pc < |p.insns| { InsnBlames(p, c.m, p.insns[c.m.pc]); }
  }

  /** A preload trap names the instruction at pc with its operands although it is not to blame. */
  lemma PreloadPayloadSays(p: Image, c: Config)
    requires !c.m.halted && c.preload.Some? && c.m.pc < |p.insns|
    ensures var i := p.insns[c.m.pc];
      Step(p, c).status == Trapped(c.preload.value)
      && Step(p, c).c.payload == Some(TrapPayload(c.preload.value, c.m.pc, i.opcode, i.a, i.b, i.c, Unknown, ""))
  {
    hide Exec;
  }
}
